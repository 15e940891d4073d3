/**
 The authority check of a delayed deletion in the columns of the rows it reads: what the Vault, the file, its versions
 and the captured items must say for every job of the group.
 */
module DeletionColumns {
  import opened Common
  import opened JobRows
  import opened DeletionRows

  ghost predicate IsActive(jobs: Jobs, v: VaultId, g: string, id: JobId) {
    && id in jobs && jobs[id].action == CloudPurge && jobs[id].vault == v && jobs[id].group == Some(g)
    && jobs[id].status != Completed && jobs[id].status != Failed && jobs[id].status != Cancelled
  }

  /** The Vault lets this group delete: enabled and active, or being decommissioned by this very group. */
  ghost predicate VaultAllows(w: World, v: VaultId, g: string, origin: Origin) {
    && v in w.vaults && !w.vaults[v].rootReleased && w.vaults[v].observationsConfirmed
    && match w.vaults[v].lifecycle
       case Active => w.vaults[v].enabled && origin == Manual
       case Decommissioning => w.vaults[v].stopGroup == Some(g) && origin == StopProtection
       case Decommissioned => false
  }

  ghost predicate AtSelectedPath(w: World, jobs: Jobs, v: VaultId, g: string, f: FileId)
    requires f in w.files
  {
    exists id :: IsActive(jobs, v, g, id) && w.files[f].path == Some(jobs[id].path)
  }

  ghost predicate IsSelected(jobs: Jobs, v: VaultId, g: string, f: FileId) {
    exists id :: IsActive(jobs, v, g, id) && jobs[id].file == f
  }

  /** The file is proved absent from the disk, at a path the Owner selected. */
  ghost predicate ProvedAbsent(w: World, jobs: Jobs, v: VaultId, g: string, f: FileId) {
    && f in w.files && v in w.vaults && w.files[f].vault == v && w.files[f].path.Some?
    && w.files[f].path.value in w.vaults[v].absent
    && AtSelectedPath(w, jobs, v, g, f)
  }

  ghost predicate HasContent(w: World, f: FileId, r: nat) {
    r in w.versions && w.versions[r].file == f && w.versions[r].availability != Purged
  }

  ghost predicate HasMarker(w: World, items: Items, f: FileId, r: nat) {
    && r in w.markers && w.markers[r].file == f
    && forall k | k in items && k.kind == DeleteMarker && k.row == r :: items[k].status != Deleted
  }

  /** A file that still has content in the cloud is cloud-only, settled, and nobody else works on it. */
  ghost predicate CloudOnly(w: World, jobs: Jobs, items: Items, v: VaultId, own: Option<string>, f: FileId)
    requires f in w.files && v in w.vaults
  {
    && !w.files[f].held && w.files[f].presence != Some(Present) && w.files[f].presence != Some(Unsupported)
    && w.files[f].path != Some("")
    && (exists r ::
          && HasContent(w, f, r) && w.versions[r].integrity == Verified && w.versions[r].availability == Available
          && forall q | q in w.versions && HasContent(w, f, q) :: w.versions[q].number <= w.versions[r].number)
    && (forall id | id in jobs && jobs[id].file == f && (own.None? || jobs[id].group != own) ::
          jobs[id].status == Completed || jobs[id].status == Failed || jobs[id].status == Cancelled)
    && (forall r {:trigger HasContent(w, f, r)} | HasContent(w, f, r) ::
          NamesOneVersion(w.versions[r].target, w.vaults[v].prefix))
    && (forall r {:trigger HasMarker(w, items, f, r)} | HasMarker(w, items, f, r) ::
          NamesOneVersion(w.markers[r].target, w.vaults[v].prefix))
  }

  ghost predicate NamesOneVersion(t: Target, prefix: string) {
    t.key != "" && t.version !in {"", "null"} && prefix + "/" <= t.key
  }

  ghost predicate NothingLeft(w: World, items: Items, f: FileId) {
    (forall r :: !HasContent(w, f, r)) && forall r :: !HasMarker(w, items, f, r)
  }

  ghost predicate Covered(items: Items, id: JobId, t: Target) {
    exists k :: k in items && k.job == id && items[k].target == t
  }

  /** Everything the file has in the cloud was captured for this job. */
  ghost predicate NothingNew(w: World, items: Items, id: JobId, f: FileId) {
    && (forall r {:trigger HasContent(w, f, r)} | HasContent(w, f, r) ::
          Covered(items, id, w.versions[r].target))
    && (forall r {:trigger HasMarker(w, items, f, r)} | HasMarker(w, items, f, r) ::
          Covered(items, id, w.markers[r].target))
  }

  /** The row a target was captured from still names it, for the same file. */
  ghost predicate SameSource(w: World, items: Items, k: ItemKey, f: FileId)
    requires k in items
  {
    && items[k].target.version !in {"", "null"}
    && match k.kind
       case Version =>
         k.row in w.versions && w.versions[k.row].file == f && w.versions[k.row].target == items[k].target
       case DeleteMarker =>
         k.row in w.markers && w.markers[k.row].file == f && w.markers[k.row].target == items[k].target
  }

  /** What was captured is all there is, and is still what it was. */
  ghost predicate StillCaptured(w: World, items: Items, id: JobId, f: FileId) {
    && (exists k :: k in items && k.job == id)
    && NothingNew(w, items, id, f)
    && (forall k | k in items && k.job == id :: SameSource(w, items, k, f))
    && (NothingLeft(w, items, f) ==> forall k | k in items && k.job == id :: items[k].status == Deleted)
  }

  /** What the rows must say for one active job of the group. */
  ghost predicate RowsAllow(w: World, jobs: Jobs, items: Items, v: VaultId, g: string, at: Time, id: JobId)
    requires id in jobs
  {
    var j := jobs[id];
    && VaultAllows(w, v, g, j.origin)
    && j.requestedAt + 7 * 24 * 3600 <= at && j.pendingUntil.Some? && j.pendingUntil.value <= at
    && ProvedAbsent(w, jobs, v, g, j.file)
    && ((exists r :: HasContent(w, j.file, r)) ==> CloudOnly(w, jobs, items, v, Some(g), j.file))
    && StillCaptured(w, items, id, j.file)
  }

  /** Whatever file is now at a selected path is one of the selected files. */
  ghost predicate NoOtherFile(w: World, jobs: Jobs, v: VaultId, g: string) {
    forall f | f in w.files && w.files[f].vault == v && AtSelectedPath(w, jobs, v, g, f) :: IsSelected(jobs, v, g, f)
  }

  lemma ActiveInColumns(jobs: Jobs, v: VaultId, g: string)
    ensures forall id :: id in ActiveMembers(jobs, v, g) <==> IsActive(jobs, v, g, id)
  {
  }

  lemma ContentInColumns(w: World, items: Items, f: FileId)
    ensures forall r :: r in LiveVersions(w, f) <==> HasContent(w, f, r)
    ensures forall r :: r in LiveMarkers(w, items, f) <==> HasMarker(w, items, f, r)
  {
  }

  lemma DeletableInColumns(w: World, jobs: Jobs, items: Items, v: VaultId, own: Option<string>, f: FileId)
    requires f in w.files && v in w.vaults && w.files[f].path.Some?
    ensures FileDeletable(w, jobs, items, v, f, own) <==> CloudOnly(w, jobs, items, v, own, f)
  {
    ContentInColumns(w, items, f);
    if CloudOnly(w, jobs, items, v, own, f) {
      var r :| HasContent(w, f, r) && w.versions[r].integrity == Verified && w.versions[r].availability == Available
        && forall q | q in w.versions && HasContent(w, f, q) :: w.versions[q].number <= w.versions[r].number;
      assert IsLatest(w, f, r);
    }
  }

  lemma NothingNewInColumns(w: World, items: Items, id: JobId, f: FileId)
    ensures NothingNew(w, items, id, f) <==>
      && (forall r | r in LiveVersions(w, f) ::
            exists k | k in JobItems(items, id) :: items[k].target == w.versions[r].target)
      && (forall r | r in LiveMarkers(w, items, f) ::
            exists k | k in JobItems(items, id) :: items[k].target == w.markers[r].target)
  {
    forall r ensures r in LiveVersions(w, f) <==> HasContent(w, f, r) {}
    forall r ensures r in LiveMarkers(w, items, f) <==> HasMarker(w, items, f, r) {}
    forall t ensures Covered(items, id, t) <==> exists k | k in JobItems(items, id) :: items[k].target == t {
      CoveredInColumns(items, id, t);
    }
  }

  lemma ConsentInColumns(w: World, items: Items, id: JobId, f: FileId)
    ensures WithinConsent(w, items, id, f) <==> StillCaptured(w, items, id, f)
  {
    NothingNewInColumns(w, items, id, f);
    ContentInColumns(w, items, f);
    assert forall k :: k in items && k.job == id <==> k in JobItems(items, id);
  }

  lemma CoveredInColumns(items: Items, id: JobId, t: Target)
    ensures Covered(items, id, t) <==> exists k | k in JobItems(items, id) :: items[k].target == t
  {
    if Covered(items, id, t) {
      var k :| k in items && k.job == id && items[k].target == t;
      assert k in JobItems(items, id);
    }
  }

  lemma VaultInColumns(w: World, jobs: Jobs, v: VaultId, g: string)
    ensures AuthorityActive(w, jobs, v, g) && w.vaults[v].observationsConfirmed <==>
      && (exists id :: IsActive(jobs, v, g, id))
      && forall id | id in jobs && IsActive(jobs, v, g, id) :: VaultAllows(w, v, g, jobs[id].origin)
  {
    ActiveInColumns(jobs, v, g);
  }

  lemma FilesAreSelected(w: World, jobs: Jobs, v: VaultId, g: string)
    requires v in w.vaults && FilesAtPaths(w, jobs, v, g) == (set id | id in ActiveMembers(jobs, v, g) :: jobs[id].file)
    requires forall f | f in FilesAtPaths(w, jobs, v, g) :: LocallyAbsent(w, v, f)
    ensures NoOtherFile(w, jobs, v, g)
    ensures forall id | id in jobs && IsActive(jobs, v, g, id) :: ProvedAbsent(w, jobs, v, g, jobs[id].file)
  {
    ActiveInColumns(jobs, v, g);
    forall f | f in w.files && w.files[f].vault == v && AtSelectedPath(w, jobs, v, g, f)
      ensures IsSelected(jobs, v, g, f)
    {
      var at :| IsActive(jobs, v, g, at) && w.files[f].path == Some(jobs[at].path);
      assert at in ActiveMembers(jobs, v, g);
      assert f in FilesAtPaths(w, jobs, v, g);
    }
    forall id | id in jobs && IsActive(jobs, v, g, id) ensures ProvedAbsent(w, jobs, v, g, jobs[id].file) {
      assert id in ActiveMembers(jobs, v, g);
      assert jobs[id].file in FilesAtPaths(w, jobs, v, g);
    }
  }

  lemma SelectedIsThere(w: World, jobs: Jobs, v: VaultId, g: string, f: FileId)
    requires v in w.vaults && ProvedAbsent(w, jobs, v, g, f)
    ensures f in FilesAtPaths(w, jobs, v, g) && LocallyAbsent(w, v, f)
  {
    var at :| IsActive(jobs, v, g, at) && w.files[f].path == Some(jobs[at].path);
    assert at in ActiveMembers(jobs, v, g);
  }

  lemma ThereIsSelected(w: World, jobs: Jobs, v: VaultId, g: string, f: FileId)
    requires NoOtherFile(w, jobs, v, g) && f in FilesAtPaths(w, jobs, v, g)
    ensures exists id :: id in ActiveMembers(jobs, v, g) && jobs[id].file == f
  {
    var at :| at in ActiveMembers(jobs, v, g) && w.files[f].path == Some(jobs[at].path);
    assert IsActive(jobs, v, g, at);
    assert AtSelectedPath(w, jobs, v, g, f) && IsSelected(jobs, v, g, f);
    var id :| IsActive(jobs, v, g, id) && jobs[id].file == f;
    assert id in ActiveMembers(jobs, v, g);
  }

  lemma SelectedAreFiles(w: World, jobs: Jobs, v: VaultId, g: string)
    requires v in w.vaults && NoOtherFile(w, jobs, v, g)
    requires forall id | id in ActiveMembers(jobs, v, g) :: ProvedAbsent(w, jobs, v, g, jobs[id].file)
    ensures FilesAtPaths(w, jobs, v, g) == (set id | id in ActiveMembers(jobs, v, g) :: jobs[id].file)
    ensures forall f | f in FilesAtPaths(w, jobs, v, g) :: LocallyAbsent(w, v, f)
  {
    forall f | f in FilesAtPaths(w, jobs, v, g)
      ensures exists id :: id in ActiveMembers(jobs, v, g) && jobs[id].file == f
    {
      ThereIsSelected(w, jobs, v, g, f);
    }
    forall id | id in ActiveMembers(jobs, v, g)
      ensures jobs[id].file in FilesAtPaths(w, jobs, v, g) && LocallyAbsent(w, v, jobs[id].file)
    {
      SelectedIsThere(w, jobs, v, g, jobs[id].file);
    }
  }

  /** What the rows must say for the whole group. */
  ghost predicate GroupAllowed(w: World, jobs: Jobs, items: Items, v: VaultId, g: string, at: Time) {
    && (exists id :: IsActive(jobs, v, g, id)) && NoOtherFile(w, jobs, v, g)
    && AllRowsAllow(w, jobs, items, v, g, at)
  }

  /** One job, in the terms of the check. */
  ghost predicate JobPasses(w: World, jobs: Jobs, items: Items, v: VaultId, g: string, at: Time, id: JobId)
    requires id in jobs && v in w.vaults && jobs[id].file in w.files
  {
    && DelayElapsed(jobs[id], at) && WithinConsent(w, items, id, jobs[id].file)
    && (LiveVersions(w, jobs[id].file) != {} ==> FileDeletable(w, jobs, items, v, jobs[id].file, Some(g)))
  }

  lemma JobInColumns(w: World, jobs: Jobs, items: Items, v: VaultId, g: string, at: Time, id: JobId)
    requires id in jobs && VaultAllows(w, v, g, jobs[id].origin) && ProvedAbsent(w, jobs, v, g, jobs[id].file)
    ensures RowsAllow(w, jobs, items, v, g, at, id) <==> JobPasses(w, jobs, items, v, g, at, id)
  {
    ContentInColumns(w, items, jobs[id].file);
    DeletableInColumns(w, jobs, items, v, Some(g), jobs[id].file);
    ConsentInColumns(w, items, id, jobs[id].file);
  }

  lemma AuthorizedJob(w: World, jobs: Jobs, items: Items, v: VaultId, g: string, at: Time, id: JobId)
    requires Authorized(w, jobs, items, v, g, at) && id in ActiveMembers(jobs, v, g)
    ensures v in w.vaults && jobs[id].file in w.files && JobPasses(w, jobs, items, v, g, at, id)
  {
    assert jobs[id].file in FilesAtPaths(w, jobs, v, g);
  }

  lemma AuthorizedGroup(w: World, jobs: Jobs, v: VaultId, g: string)
    requires AuthorityActive(w, jobs, v, g) && w.vaults[v].observationsConfirmed
    requires FilesAtPaths(w, jobs, v, g) == (set id | id in ActiveMembers(jobs, v, g) :: jobs[id].file)
    requires forall f | f in FilesAtPaths(w, jobs, v, g) :: LocallyAbsent(w, v, f)
    ensures (exists id :: IsActive(jobs, v, g, id)) && NoOtherFile(w, jobs, v, g)
    ensures forall id | id in jobs && IsActive(jobs, v, g, id) ::
      VaultAllows(w, v, g, jobs[id].origin) && ProvedAbsent(w, jobs, v, g, jobs[id].file)
  {
    VaultInColumns(w, jobs, v, g);
    FilesAreSelected(w, jobs, v, g);
  }

  lemma AuthorizedRow(w: World, jobs: Jobs, items: Items, v: VaultId, g: string, at: Time, id: JobId)
    requires Authorized(w, jobs, items, v, g, at) && id in ActiveMembers(jobs, v, g)
    ensures RowsAllow(w, jobs, items, v, g, at, id)
  {
    AuthorizedGroup(w, jobs, v, g);
    AuthorizedJob(w, jobs, items, v, g, at, id);
    JobInColumns(w, jobs, items, v, g, at, id);
  }

  ghost predicate AllRowsAllow(w: World, jobs: Jobs, items: Items, v: VaultId, g: string, at: Time) {
    forall id | id in jobs && IsActive(jobs, v, g, id) :: RowsAllow(w, jobs, items, v, g, at, id)
  }

  lemma AuthorizedRows(w: World, jobs: Jobs, items: Items, v: VaultId, g: string, at: Time)
    requires Authorized(w, jobs, items, v, g, at)
    ensures AllRowsAllow(w, jobs, items, v, g, at)
  {
    forall id | id in jobs && IsActive(jobs, v, g, id) ensures RowsAllow(w, jobs, items, v, g, at, id) {
      assert id in ActiveMembers(jobs, v, g);
      AuthorizedRow(w, jobs, items, v, g, at, id);
    }
  }

  lemma AuthorizedIsAllowed(w: World, jobs: Jobs, items: Items, v: VaultId, g: string, at: Time)
    requires Authorized(w, jobs, items, v, g, at)
    ensures GroupAllowed(w, jobs, items, v, g, at)
  {
    AuthorizedGroup(w, jobs, v, g);
    AuthorizedRows(w, jobs, items, v, g, at);
  }

  lemma AllowedJob(w: World, jobs: Jobs, items: Items, v: VaultId, g: string, at: Time, id: JobId)
    requires GroupAllowed(w, jobs, items, v, g, at) && id in ActiveMembers(jobs, v, g)
    ensures VaultAllows(w, v, g, jobs[id].origin) && ProvedAbsent(w, jobs, v, g, jobs[id].file)
    ensures JobPasses(w, jobs, items, v, g, at, id)
  {
    assert IsActive(jobs, v, g, id);
    assert RowsAllow(w, jobs, items, v, g, at, id);
    JobInColumns(w, jobs, items, v, g, at, id);
  }

  lemma AllowedGroup(w: World, jobs: Jobs, items: Items, v: VaultId, g: string, at: Time)
    requires GroupAllowed(w, jobs, items, v, g, at)
    ensures AuthorityActive(w, jobs, v, g) && w.vaults[v].observationsConfirmed
    ensures FilesAtPaths(w, jobs, v, g) == (set id | id in ActiveMembers(jobs, v, g) :: jobs[id].file)
    ensures forall f | f in FilesAtPaths(w, jobs, v, g) :: LocallyAbsent(w, v, f)
  {
    VaultInColumns(w, jobs, v, g);
    forall id | id in ActiveMembers(jobs, v, g) ensures ProvedAbsent(w, jobs, v, g, jobs[id].file) {
      AllowedJob(w, jobs, items, v, g, at, id);
    }
    SelectedAreFiles(w, jobs, v, g);
  }

  lemma PassedIsAuthorized(w: World, jobs: Jobs, items: Items, v: VaultId, g: string, at: Time)
    requires AuthorityActive(w, jobs, v, g) && w.vaults[v].observationsConfirmed
    requires FilesAtPaths(w, jobs, v, g) == (set id | id in ActiveMembers(jobs, v, g) :: jobs[id].file)
    requires forall f | f in FilesAtPaths(w, jobs, v, g) :: LocallyAbsent(w, v, f)
    requires forall id | id in ActiveMembers(jobs, v, g) ::
      jobs[id].file in w.files && JobPasses(w, jobs, items, v, g, at, id)
    ensures Authorized(w, jobs, items, v, g, at)
  {
  }

  lemma AllowedIsAuthorized(w: World, jobs: Jobs, items: Items, v: VaultId, g: string, at: Time)
    requires GroupAllowed(w, jobs, items, v, g, at)
    ensures Authorized(w, jobs, items, v, g, at)
  {
    AllowedGroup(w, jobs, items, v, g, at);
    forall id | id in ActiveMembers(jobs, v, g)
      ensures jobs[id].file in w.files && JobPasses(w, jobs, items, v, g, at, id)
    {
      AllowedJob(w, jobs, items, v, g, at, id);
    }
    PassedIsAuthorized(w, jobs, items, v, g, at);
  }

  /** The check passes exactly when every column of every row is as it must be. */
  lemma AuthorizedInColumns(w: World, jobs: Jobs, items: Items, v: VaultId, g: string, at: Time)
    ensures Authorized(w, jobs, items, v, g, at) <==> GroupAllowed(w, jobs, items, v, g, at)
  {
    if Authorized(w, jobs, items, v, g, at) { AuthorizedIsAllowed(w, jobs, items, v, g, at); }
    if GroupAllowed(w, jobs, items, v, g, at) { AllowedIsAuthorized(w, jobs, items, v, g, at); }
  }

  // ----- admission -----

  /** A file that may be selected: known, cloud-only with nobody working on it, and proved absent from the disk. */
  ghost predicate Selectable(w: World, jobs: Jobs, items: Items, v: VaultId, f: FileId) {
    && v in w.vaults && f in w.files && w.files[f].vault == v && w.files[f].path.Some?
    && w.files[f].path.value in w.vaults[v].absent && CloudOnly(w, jobs, items, v, None, f)
  }

  /** An admission is the Owner's: confirmed by name, with a reason, for an active Vault and selectable files only. */
  lemma AdmissibleInColumns(w: World, jobs: Jobs, items: Items, v: VaultId, origin: Origin, confirmation: string,
    reason: string, selected: set<FileId>)
    ensures Admissible(w, jobs, items, v, origin, confirmation, reason, selected) <==>
      && v in w.vaults && w.vaults[v].lifecycle == Active && !w.vaults[v].rootReleased
      && w.vaults[v].observationsConfirmed && origin != Automatic
      && confirmation == w.vaults[v].name && |reason| <= 500 && (exists c | c in reason :: !IsSpace(c))
      && selected != {} && forall f | f in selected :: Selectable(w, jobs, items, v, f)
  {
    if v in w.vaults {
      forall f | f in selected && f in w.files && w.files[f].path.Some?
        ensures FileDeletable(w, jobs, items, v, f, None) <==> CloudOnly(w, jobs, items, v, None, f)
      {
        DeletableInColumns(w, jobs, items, v, None, f);
      }
    }
  }

  /** The targets captured for a job are those of all versions and markers its file has at that moment. */
  lemma CapturedInColumns(w: World, items: Items, job: JobId, f: FileId, k: ItemKey)
    ensures k in CapturedKeys(w, items, job, f) <==>
      k.job == job && if k.kind == Version then HasContent(w, f, k.row) else HasMarker(w, items, f, k.row)
    ensures k in CapturedKeys(w, items, job, f) ==>
      RowTarget(w, k) == if k.kind == Version then w.versions[k.row].target else w.markers[k.row].target
  {
    ContentInColumns(w, items, f);
  }
}
