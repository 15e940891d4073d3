/**
 Delayed cloud deletion as a state machine over the job engine: admission, workers that may crash
 or stall at any point, the authority check and the group lease before every batch, the provider
 call, and restart reconciliation. The catalog itself may change arbitrarily between steps.
 */
module PurgeMachine {
  import opened Common
  import opened JobRows
  import J = JobSteps
  import opened DeletionRows

  /** What one worker saw when its authority check and its group renewal committed. */
  datatype Fence = Fence(at: Time, jobs: Jobs, items: Items, world: World)

  datatype Phase =
    | Ready
    | Fenced(fence: Fence, batch: set<ItemKey>)
    | Called(sent: set<ItemKey>)

  datatype Worker = Worker(
    vault: VaultId, group: string, token: Token, expected: set<JobId>, remaining: set<ItemKey>, phase: Phase)

  datatype DeleteCall = DeleteCall(
    vault: VaultId, group: string, token: Token, expected: set<JobId>, at: Time, targets: set<Target>, fence: Fence)

  datatype Admission = Admission(target: Target, at: Time, vault: VaultId, group: string)

  datatype State = State(
    js: J.State,
    items: Items,
    world: World,
    cloud: set<Target>,                     // objects the provider holds
    workers: map<nat, Worker>,
    log: seq<DeleteCall>,                   // every DeleteObjects request ever sent
    admitted: map<ItemKey, Admission>)      // what each admission captured, written once

  datatype Step =
    | Job(step: J.Step)                     // a step of the job engine that involves no deletion item
    | Cancel(vault: VaultId, group: string) // by the Owner, or because a selected file reappeared
    | Environment(world: World, cloud: set<Target>)
    | Admit(vault: VaultId, group: string, origin: Origin, confirmation: string, reason: string, rows: map<JobId,
      (FileId, string)>)
    | Start(w: nat, lead: JobId, token: Token)
    | FenceBatch(w: nat, batch: set<ItemKey>)
    | Call(w: nat, removed: set<Target>)
    | Record(w: nat, failed: set<ItemKey>)
    | Finish(w: nat)
    | Crash(w: nat)
    | ReconcileItems(vault: VaultId, group: string, unreadable: bool)

  const BATCH: nat := 1000

  // ----- effects on items -----

  function Skip(items: Items, jobs: set<JobId>): Items {
    map k | k in items ::
      if k.job in jobs && (items[k].status == Pending || items[k].status == Errored) then items[k].(status := Skipped)
      else items[k]
  }

  function Mark(items: Items, keys: set<ItemKey>, status: ItemStatus): Items {
    map k | k in items :: if k in keys then items[k].(status := status) else items[k]
  }

  /** Recording a deletion also marks the captured Archive Version purged. */
  function PurgeVersions(w: World, keys: set<ItemKey>): World {
    w.(versions := map r | r in w.versions ::
         if exists k | k in keys :: k.kind == Version && k.row == r then w.versions[r].(availability := Purged)
         else w.versions[r])
  }

  function Outstanding(items: Items, jobs: set<JobId>): set<ItemKey> {
    set k | k in items && k.job in jobs && (items[k].status == Pending || items[k].status == Errored)
  }

  function TargetsOf(items: Items, keys: set<ItemKey>): set<Target> {
    set k | k in keys && k in items :: items[k].target
  }

  /** Jobs whose every captured target is gone. */
  function FullyDeleted(items: Items, jobs: set<JobId>): set<JobId> {
    set id | id in jobs && JobItems(items, id) != {} &&
      forall k | k in JobItems(items, id) :: items[k].status == Deleted
  }

  // ----- guards -----

  predicate LeadsGroup(s: State, lead: JobId) {
    lead in s.js.jobs && s.js.jobs[lead].action == CloudPurge && s.js.jobs[lead].group.Some? &&
      s.js.jobs[lead].group.value != ""
  }

  /** `load_claimed_purge_group`: the whole active group is still being cleaned under this token. */
  predicate Loadable(s: State, v: VaultId, g: string, t: Token) {
    var active := ActiveMembers(s.js.jobs, v, g);
    active != {} && forall id | id in active :: s.js.jobs[id].status == Cleaning && Owns(s.js.jobs[id], t, s.js.now)
  }

  function FenceOf(s: State): Fence {
    Fence(s.js.now, s.js.jobs, s.items, s.world)
  }

  predicate Ok(s: State, v: VaultId, g: string) {
    Authorized(s.world, s.js.jobs, s.items, v, g, s.js.now)
  }

  predicate StillHeld(s: State, w: Worker) {
    J.HeldMembers(s.js.jobs, s.js.now, w.vault, w.group, w.token) == w.expected
  }

  /** The database hands out new job ids, and the group id is a new random one. */
  predicate FreshGroup(js: J.State, g: string, rows: map<JobId, (FileId, string)>) {
    rows != map[] && rows.Keys !! js.jobs.Keys && g != "" && forall id | id in js.jobs :: js.jobs[id].group != Some(g)
  }

  predicate Enabled(s: State, step: Step) {
    match step
    case Job(j) =>
      J.Enabled(s.js, j) && !j.AdmitPurge? && !j.CancelPurge? && !j.RevokePurge? && !j.FinalizePurge? &&
        !j.ReconcileGroup?
    case Cancel(v, g) => J.Cancellable(s.js.jobs, v, g)
    case Environment(_, _) => true
    case Admit(v, g, origin, confirmation, reason, rows) =>
      && FreshGroup(s.js, g, rows)
      && (forall a, b | a in rows && b in rows && rows[a].0 == rows[b].0 :: a == b)
      && Admissible(s.world, s.js.jobs, s.items, v, origin, confirmation, reason, set id | id in rows :: rows[id].0)
      && forall id | id in rows :: s.world.files[rows[id].0].path == Some(rows[id].1)
    case Start(w, lead, _) => w !in s.workers && LeadsGroup(s, lead)
    case FenceBatch(w, batch) =>
      w in s.workers && s.workers[w].phase.Ready? && batch != {} && batch <= s.workers[w].remaining && |batch| <= BATCH
    case Call(w, removed) =>
      w in s.workers && s.workers[w].phase.Fenced? && removed <= TargetsOf(s.items, s.workers[w].phase.batch)
    case Record(w, failed) => w in s.workers && s.workers[w].phase.Called? && failed <= s.workers[w].phase.sent
    case Finish(w) => w in s.workers && s.workers[w].phase.Ready? && s.workers[w].remaining == {}
    case Crash(w) => w in s.workers
    case ReconcileItems(_, _, _) => true
  }

  function GroupOf(s: State, lead: JobId): string
    requires LeadsGroup(s, lead)
  {
    s.js.jobs[lead].group.value
  }

  /** Members of a group that reconciliation would resume or end. */
  function Stale(s: State, v: VaultId, g: string): set<JobId> {
    if !J.GroupReconcilable(s.js.jobs, s.js.now, v, g) then {}
    else set id | id in ActiveMembers(s.js.jobs, v, g) && s.js.jobs[id].status == Cleaning
  }

  /** A recorded failure, or a provider that cannot be read, ends an interrupted group. */
  predicate Ends(s: State, v: VaultId, g: string, unreadable: bool) {
    unreadable || exists k | k in Outstanding(s.items, Stale(s, v, g)) :: s.items[k].status == Errored
  }

  /** Exact targets of an interrupted group that the provider no longer holds. */
  function Vanished(s: State, v: VaultId, g: string): set<ItemKey> {
    set k | k in Outstanding(s.items, Stale(s, v, g)) && s.items[k].target !in s.cloud
  }

  // ----- the step, component by component -----

  /** The part of a step that the job engine performs. */
  function EngineStep(s: State, step: Step): Option<J.Step>
    requires Enabled(s, step)
  {
    match step
    case Job(j) => Some(j)
    case Cancel(v, g) => Some(J.CancelPurge(v, g))
    case Admit(v, g, origin, _, _, rows) => Some(J.AdmitPurge(v, g, origin, rows))
    case Start(_, lead, _) =>
      if Ok(s, s.js.jobs[lead].vault, GroupOf(s, lead)) then None
      else Some(J.RevokePurge(s.js.jobs[lead].vault, GroupOf(s, lead)))
    case FenceBatch(w, _) =>
      var wk := s.workers[w];
      if !Ok(s, wk.vault, wk.group) then Some(J.RevokePurge(wk.vault, wk.group))
      else Some(J.RenewGroup(wk.vault, wk.group, wk.token, wk.expected))
    case Record(w, _) =>
      var wk := s.workers[w];
      Some(J.RenewGroup(wk.vault, wk.group, wk.token, wk.expected))
    case Finish(w) =>
      var wk := s.workers[w];
      Some(J.FinalizePurge(wk.vault, wk.group, wk.token, wk.expected, FullyDeleted(s.items, wk.expected)))
    case ReconcileItems(v, g, unreadable) => Some(J.ReconcileGroup(v, g, Ends(s, v, g, unreadable)))
    case _ => None
  }

  function NextItems(s: State, step: Step): Items
    requires Enabled(s, step)
  {
    match step
    case Cancel(v, g) => Skip(s.items, J.Members(s.js.jobs, v, g))
    case Admit(_, _, _, _, _, rows) => s.items + Capture(s, rows)
    case Start(_, lead, _) =>
      var v, g := s.js.jobs[lead].vault, GroupOf(s, lead);
      if Ok(s, v, g) then s.items else Skip(s.items, ActiveMembers(s.js.jobs, v, g))
    case FenceBatch(w, _) =>
      var v, g := s.workers[w].vault, s.workers[w].group;
      if Ok(s, v, g) then s.items else Skip(s.items, ActiveMembers(s.js.jobs, v, g))
    case Record(w, failed) =>
      if StillHeld(s, s.workers[w]) then Mark(Mark(s.items, s.workers[w].phase.sent - failed, Deleted), failed,
        Errored) else s.items
    case ReconcileItems(v, g, unreadable) =>
      if Ends(s, v, g, unreadable) then s.items else Mark(s.items, Vanished(s, v, g), Deleted)
    case _ => s.items
  }

  /** The items a step records as deleted. */
  function Recorded(s: State, step: Step): set<ItemKey>
    requires Enabled(s, step)
  {
    match step
    case Record(w, failed) => if StillHeld(s, s.workers[w]) then s.workers[w].phase.sent - failed else {}
    case ReconcileItems(v, g, unreadable) => if Ends(s, v, g, unreadable) then {} else Vanished(s, v, g)
    case _ => {}
  }

  function NextWorld(s: State, step: Step): World
    requires Enabled(s, step)
  {
    match step
    case Environment(world, _) => world
    case Record(w, failed) =>
      if StillHeld(s, s.workers[w]) then PurgeVersions(s.world, s.workers[w].phase.sent - failed) else s.world
    case ReconcileItems(v, g, unreadable) =>
      if Ends(s, v, g, unreadable) then s.world else PurgeVersions(s.world, Vanished(s, v, g))
    case _ => s.world
  }

  function NextWorkers(s: State, step: Step): map<nat, Worker>
    requires Enabled(s, step)
  {
    match step
    case Start(w, lead, t) =>
      var v, g := s.js.jobs[lead].vault, GroupOf(s, lead);
      var active := ActiveMembers(s.js.jobs, v, g);
      if Ok(s, v, g) && Loadable(s, v, g, t)
      then s.workers[w := Worker(v, g, t, active, Outstanding(s.items, active), Ready)] else s.workers
    case FenceBatch(w, batch) =>
      var wk := s.workers[w];
      if Ok(s, wk.vault, wk.group) && StillHeld(s, wk)
      then s.workers[w := wk.(phase := Fenced(FenceOf(s), batch))] else s.workers - {w}
    case Call(w, _) => s.workers[w := s.workers[w].(phase := Called(s.workers[w].phase.batch))]
    case Record(w, _) =>
      var wk := s.workers[w];
      if StillHeld(s, wk) then s.workers[w := wk.(phase := Ready, remaining := wk.remaining - wk.phase.sent)]
        else s.workers - {w}
    case Finish(w) => s.workers - {w}
    case Crash(w) => s.workers - {w}
    case _ => s.workers
  }

  function NextLog(s: State, step: Step): seq<DeleteCall>
    requires Enabled(s, step)
  {
    match step
    case Call(w, _) =>
      var wk := s.workers[w];
      s.log + [DeleteCall(wk.vault, wk.group, wk.token, wk.expected, s.js.now, TargetsOf(s.items, wk.phase.batch),
        wk.phase.fence)]
    case _ => s.log
  }

  function NextAdmitted(s: State, step: Step): map<ItemKey, Admission>
    requires Enabled(s, step)
  {
    match step
    case Admit(v, g, _, _, _, rows) =>
      s.admitted + Consents(Capture(s, rows), s.js.now, v, g)
    case _ => s.admitted
  }

  function Apply(s: State, step: Step): State
    requires Enabled(s, step)
  {
    State(
      if EngineStep(s, step).Some? then J.Apply(s.js, EngineStep(s, step).value) else s.js,
      NextItems(s, step),
      NextWorld(s, step),
      match step { case Environment(_, cloud) => cloud case Call(_, removed) => s.cloud - removed case _ => s.cloud },
      NextWorkers(s, step),
      NextLog(s, step),
      NextAdmitted(s, step))
  }

  /** The items one admission inserts: for each selected file, everything it has in the cloud. */
  function Capture(s: State, rows: map<JobId, (FileId, string)>): Items {
    map k | k in CaptureKeys(s, rows) :: Item(RowTarget(s.world, k), Pending)
  }

  function Consents(captured: Items, at: Time, v: VaultId, g: string): map<ItemKey, Admission> {
    map k | k in captured :: Admission(captured[k].target, at, v, g)
  }

  function CaptureKeys(s: State, rows: map<JobId, (FileId, string)>): set<ItemKey> {
    set id, k | id in rows && k in CapturedKeys(s.world, s.items, id, rows[id].0) :: k
  }

  predicate Stepped(s: State, step: Step, s': State) {
    Enabled(s, step) && s' == Apply(s, step)
  }

  ghost predicate Next(s: State, s': State) {
    exists step :: Stepped(s, step, s')
  }

  ghost predicate StepAt(run: seq<State>, i: nat)
    requires i + 1 < |run|
  {
    Next(run[i], run[i + 1])
  }

  ghost predicate IsRun(run: seq<State>) {
    forall i: nat | i + 1 < |run| :: StepAt(run, i)
  }

  predicate Init(s: State) {
    J.Init(s.js) && s.items == map[] && s.workers == map[] && s.log == [] && s.admitted == map[]
  }

  /** Every step moves the job table by at most one step of the job engine. */
  lemma EngineStepEnabled(s: State, step: Step)
    requires Enabled(s, step) && EngineStep(s, step).Some?
    ensures J.Enabled(s.js, EngineStep(s, step).value)
  {
  }
}
