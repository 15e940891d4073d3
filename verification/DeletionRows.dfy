/**
 Rows behind a delayed cloud deletion: the exact targets captured at admission, the catalog rows
 they are compared with, and the authority check that is repeated before every provider call.
 */
module DeletionRows {
  import opened Common
  import opened JobRows
  import opened JobSteps

  datatype Kind = Version | DeleteMarker

  datatype ItemStatus = Pending | Deleted | Skipped | Errored

  /** An item is identified by its job and by the catalog row it was captured from. */
  datatype ItemKey = ItemKey(job: JobId, kind: Kind, row: nat)

  datatype Item = Item(target: Target, status: ItemStatus)

  type Items = map<ItemKey, Item>

  datatype VersionRow = VersionRow(
    vault: VaultId, file: FileId, number: int, target: Target, availability: Availability, integrity: Integrity)

  datatype MarkerRow = MarkerRow(file: FileId, target: Target)

  datatype FileRow = FileRow(
    vault: VaultId, path: Option<string>, presence: Option<Presence>, held: bool)

  datatype Lifecycle = Active | Decommissioning | Decommissioned

  /** The Vault row, with what the filesystem and the health records say about it right now. */
  datatype VaultRow = VaultRow(
    name: string,
    prefix: string,
    enabled: bool,
    lifecycle: Lifecycle,
    rootReleased: bool,
    stopGroup: Option<string>,      // protection_stops row that disposes of the cloud copies
    observationsConfirmed: bool,
    absent: set<string>)            // paths whose local absence can be proved through the enrolled root

  datatype World = World(
    vaults: map<VaultId, VaultRow>,
    files: map<FileId, FileRow>,
    versions: map<nat, VersionRow>,
    markers: map<nat, MarkerRow>)

  // ----- catalog queries -----

  function LiveVersions(w: World, file: FileId): set<nat> {
    set r | r in w.versions && w.versions[r].file == file && w.versions[r].availability != Purged
  }

  /** Delete markers whose removal has not been recorded by an earlier deletion. */
  function LiveMarkers(w: World, items: Items, file: FileId): set<nat> {
    set r | r in w.markers && w.markers[r].file == file
      && !exists k | k in items :: k.kind == DeleteMarker && k.row == r && items[k].status == Deleted
  }

  predicate IsLatest(w: World, file: FileId, r: nat) {
    r in LiveVersions(w, file) && forall q | q in LiveVersions(w, file) :: w.versions[q].number <= w.versions[r].number
  }

  predicate ExactTarget(t: Target, prefix: string) {
    t.key != "" && t.version != "" && t.version != "null" && prefix + "/" <= t.key
  }

  /** Active work on the file outside the group itself. */
  predicate OtherWork(jobs: Jobs, file: FileId, own: Option<string>) {
    exists id | id in jobs :: jobs[id].file == file && !Terminal(jobs[id].status) &&
      (own.None? || jobs[id].group != own)
  }

  /** `_validate_files` for one selected file. */
  predicate FileDeletable(w: World, jobs: Jobs, items: Items, v: VaultId, file: FileId, own: Option<string>)
    requires file in w.files && v in w.vaults
  {
    var f, vault := w.files[file], w.vaults[v];
    && (f.presence.None? || f.presence.value == Absent) && !f.held
    && f.path.Some? && f.path.value != ""
    && (exists r | r in w.versions ::
          IsLatest(w, file, r) && w.versions[r].integrity == Verified && w.versions[r].availability == Available)
    && !OtherWork(jobs, file, own)
    && (forall r | r in LiveVersions(w, file) :: ExactTarget(w.versions[r].target, vault.prefix))
    && (forall r | r in LiveMarkers(w, items, file) :: ExactTarget(w.markers[r].target, vault.prefix))
  }

  predicate LocallyAbsent(w: World, v: VaultId, file: FileId)
    requires file in w.files && v in w.vaults
  {
    w.files[file].path.Some? && w.files[file].path.value in w.vaults[v].absent
  }

  // ----- admission -----

  /** The selection a request may schedule: confirmed, cloud-only files, proved absent. */
  predicate Admissible(w: World, jobs: Jobs, items: Items, v: VaultId, origin: Origin, confirmation: string,
                       reason: string, selected: set<FileId>)
  {
    && v in w.vaults && w.vaults[v].lifecycle == Active && !w.vaults[v].rootReleased
    && (origin == Manual || origin == StopProtection)
    && confirmation == w.vaults[v].name && (exists c | c in reason :: !IsSpace(c)) && |reason| <= 500
    && w.vaults[v].observationsConfirmed
    && selected != {}
    && forall f | f in selected ::
         f in w.files && w.files[f].vault == v && FileDeletable(w, jobs, items, v, f, None) && LocallyAbsent(w, v, f)
  }

  /** Every version and every delete marker the file has at that moment, and nothing else. */
  function CapturedKeys(w: World, items: Items, job: JobId, file: FileId): set<ItemKey> {
    (set r | r in LiveVersions(w, file) :: ItemKey(job, Version, r))
    + (set r | r in LiveMarkers(w, items, file) :: ItemKey(job, DeleteMarker, r))
  }

  /** The exact target recorded on the catalog row an item is captured from. */
  function RowTarget(w: World, k: ItemKey): Target {
    match k.kind
    case Version => if k.row in w.versions then w.versions[k.row].target else Target("", "")
    case DeleteMarker => if k.row in w.markers then w.markers[k.row].target else Target("", "")
  }

  // ----- the authority check repeated before every batch -----

  predicate AuthorityActive(w: World, jobs: Jobs, v: VaultId, g: string) {
    var active := ActiveMembers(jobs, v, g);
    && active != {} && v in w.vaults && !w.vaults[v].rootReleased
    && (if w.vaults[v].lifecycle == Active
        then w.vaults[v].enabled && forall id | id in active :: jobs[id].origin == Manual
        else w.vaults[v].lifecycle == Decommissioning && w.vaults[v].stopGroup == Some(g)
             && forall id | id in active :: jobs[id].origin == StopProtection)
  }

  predicate DelayElapsed(j: Job, at: Time) {
    j.pendingUntil.Some? && j.requestedAt + DELETION_DELAY <= at && j.pendingUntil.value <= at
  }

  /** The files now at the paths of the active jobs. */
  function FilesAtPaths(w: World, jobs: Jobs, v: VaultId, g: string): set<FileId> {
    set f | f in w.files && w.files[f].vault == v
      && exists id | id in ActiveMembers(jobs, v, g) :: w.files[f].path == Some(jobs[id].path)
  }

  function JobItems(items: Items, job: JobId): set<ItemKey> {
    set k | k in items && k.job == job
  }

  /** The row an item was captured from still exists, for the same file and the same target. */
  predicate SameRow(w: World, k: ItemKey, target: Target, file: FileId) {
    match k.kind
    case Version => k.row in w.versions && w.versions[k.row].file == file && w.versions[k.row].target == target
    case DeleteMarker => k.row in w.markers && w.markers[k.row].file == file && w.markers[k.row].target == target
  }

  /** The file's cloud content is still within what this job was allowed to delete. */
  predicate WithinConsent(w: World, items: Items, job: JobId, file: FileId) {
    var own := JobItems(items, job);
    && own != {}
    && (LiveVersions(w, file) == {} && LiveMarkers(w, items, file) == {} ==>
      forall k | k in own :: items[k].status == Deleted)
    && (forall r {:trigger r in LiveVersions(w, file)} | r in LiveVersions(w, file) ::
          exists k | k in own :: items[k].target == w.versions[r].target)
    && (forall r {:trigger r in LiveMarkers(w, items, file)} | r in LiveMarkers(w, items, file) ::
          exists k | k in own :: items[k].target == w.markers[r].target)
    && forall k | k in own ::
         items[k].target.version != "" && items[k].target.version != "null" && SameRow(w, k, items[k].target, file)
  }

  /** `validate_execution`: what must hold, under the Vault lock, before any delete call. */
  predicate Authorized(w: World, jobs: Jobs, items: Items, v: VaultId, g: string, at: Time) {
    var active := ActiveMembers(jobs, v, g);
    && AuthorityActive(w, jobs, v, g)
    && (forall id | id in active :: DelayElapsed(jobs[id], at))
    && FilesAtPaths(w, jobs, v, g) == (set id | id in active :: jobs[id].file)
    && (forall f | f in FilesAtPaths(w, jobs, v, g) :: LocallyAbsent(w, v, f))
    && w.vaults[v].observationsConfirmed
    && (forall f | f in FilesAtPaths(w, jobs, v, g) &&
      LiveVersions(w, f) != {} :: FileDeletable(w, jobs, items, v, f, Some(g)))
    && forall id | id in active :: WithinConsent(w, items, id, jobs[id].file)
  }
}
