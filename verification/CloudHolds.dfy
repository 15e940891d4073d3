/**
 Content that reappears at a path kept only in the cloud is held until it proves identical, its version is
 no longer recoverable, or the Owner decides. Settling takes the decisions that need no one.
 */
module CloudHolds {
  import opened Common
  import opened LocalCopies

  datatype Version = Version(file: FileId, verified: bool, available: bool, digest: Option<Digest>)

  /** A `cloud_only_conflict` incident. */
  datatype Incident = Incident(file: FileId, version: VersionId, path: Path, open: bool)

  datatype Holds = Holds(
    paths: map<FileId, Path>,                // current path of each file
    copies: map<FileId, Copy>,
    versions: map<VersionId, Version>,
    incidents: seq<Incident>)

  predicate Held(s: Holds, f: FileId, v: VersionId) {
    f in s.copies && s.copies[f].hold == Some(v)
  }

  predicate InScope(s: Holds, f: FileId, scope: Option<Path>) {
    f in s.paths && f in s.copies && s.copies[f].hold.Some? && (scope.Some? ==> s.paths[f] == scope.value)
  }

  datatype Verdict = Release | Identical | Conflict | Wait

  predicate Hashed(c: Copy) {
    c.presence.Present? && c.fileType.Regular? && c.digest.Some?
  }

  function Judge(c: Copy, versions: map<VersionId, Version>): Verdict
    requires c.hold.Some?
  {
    var v := c.hold.value;
    if !(v in versions && versions[v].verified && versions[v].available) then Release
    else if !Hashed(c) then Wait
    else if versions[v].digest == c.digest then Identical
    else Conflict
  }

  function Settled(c: Copy, versions: map<VersionId, Version>): Copy
    requires c.hold.Some?
  {
    match Judge(c, versions)
    case Release => c.(hold := None)
    case Identical => c.(matched := c.hold, hold := None)
    case _ => c
  }

  predicate HasOpen(incidents: seq<Incident>, v: VersionId) {
    exists i :: 0 <= i < |incidents| && incidents[i].open && incidents[i].version == v
  }

  predicate Conflicts(s: Holds, f: FileId) {
    f in s.copies && s.copies[f].hold.Some? && Judge(s.copies[f], s.versions).Conflict?
  }

  /** One conflict is opened per held version that has none. */
  function Opened(s: Holds, rows: seq<FileId>): seq<Incident> {
    if rows == [] then s.incidents
    else
      var before, f := Opened(s, rows[..|rows| - 1]), rows[|rows| - 1];
      if Conflicts(s, f) && f in s.paths && !HasOpen(before, s.copies[f].hold.value)
      then before + [Incident(f, s.copies[f].hold.value, s.paths[f], true)] else before
  }

  function SettledCopies(s: Holds, rows: seq<FileId>): map<FileId, Copy>
    requires forall f | f in rows :: f in s.copies && s.copies[f].hold.Some?
  {
    map f | f in s.copies :: if f in rows then Settled(s.copies[f], s.versions) else s.copies[f]
  }

  /** The content behind an incident is still there and still held. */
  predicate Backed(copies: map<FileId, Copy>, i: Incident) {
    i.file in copies && copies[i.file].hold == Some(i.version) && copies[i.file].presence.Present?
  }

  function Reviewed(i: Incident, copies: map<FileId, Copy>, scope: Option<Path>): Incident {
    if i.open && (scope.Some? ==> i.path == scope.value) && !Backed(copies, i) then i.(open := false) else i
  }

  function Review(incidents: seq<Incident>, copies: map<FileId, Copy>, scope: Option<Path>): (r: seq<Incident>)
    ensures |r| == |incidents| && forall k | 0 <= k < |r| :: r[k] == Reviewed(incidents[k], copies, scope)
  {
    seq(|incidents|, k requires 0 <= k < |incidents| => Reviewed(incidents[k], copies, scope))
  }

  ghost predicate Selects(s: Holds, rows: seq<FileId>, scope: Option<Path>) {
    forall f :: f in rows <==> InScope(s, f, scope)
  }

  /** `settle_cloud_only_copies` over a Vault, or over one path of it. */
  ghost function Settle(s: Holds, rows: seq<FileId>, scope: Option<Path>): Holds
    requires Selects(s, rows, scope)
  {
    var copies := SettledCopies(s, rows);
    s.(copies := copies, incidents := Review(Opened(s, rows), copies, scope))
  }

  // ----- consistency -----

  /** A file only holds versions of its own, and open conflicts name the file of their version, once. */
  predicate Valid(s: Holds) {
    && (forall f | f in s.copies && s.copies[f].hold.Some? && s.copies[f].hold.value in s.versions ::
          s.versions[s.copies[f].hold.value].file == f)
    && Coherent(s.incidents, s.versions)
  }

  predicate Coherent(incidents: seq<Incident>, versions: map<VersionId, Version>) {
    && (forall i | 0 <= i < |incidents| :: incidents[i].open && incidents[i].version in versions ==>
          incidents[i].file == versions[incidents[i].version].file)
    && (forall i, j | 0 <= i < j < |incidents| :: incidents[i].open && incidents[j].open ==>
      incidents[i].version != incidents[j].version)
  }

  lemma {:induction false} OpenedFacts(s: Holds, rows: seq<FileId>, v: VersionId)
    requires Valid(s) && forall f | f in rows :: f in s.paths
    ensures Coherent(Opened(s, rows), s.versions) && |s.incidents| <= |Opened(s, rows)|
    ensures HasOpen(s.incidents, v) ==> HasOpen(Opened(s, rows), v)
    ensures (exists f :: f in rows && Conflicts(s, f) && Held(s, f, v)) ==> HasOpen(Opened(s, rows), v)
  {
    if rows != [] {
      var front, last := rows[..|rows| - 1], rows[|rows| - 1];
      OpenedFacts(s, front, v);
      var before, after := Opened(s, front), Opened(s, rows);
      if HasOpen(before, v) {
        var i :| 0 <= i < |before| && before[i].open && before[i].version == v;
        assert after[i] == before[i];
      }
      if f :| f in rows && Conflicts(s, f) && Held(s, f, v) {
        if f == last {
          if !HasOpen(before, v) { assert after[|before|].version == v; }
        } else {
          assert f in front;
        }
      }
    }
  }

  lemma ReviewFacts(s: Holds, raised: seq<Incident>, copies: map<FileId, Copy>, scope: Option<Path>)
    requires Coherent(raised, s.versions)
    ensures Coherent(Review(raised, copies, scope), s.versions)
  {
  }

  /** Settling keeps the incidents coherent. */
  lemma SettleKeepsValid(s: Holds, rows: seq<FileId>, scope: Option<Path>)
    requires Valid(s) && Selects(s, rows, scope)
    ensures Valid(Settle(s, rows, scope))
  {
    OpenedFacts(s, rows, 0);
    ReviewFacts(s, Opened(s, rows), SettledCopies(s, rows), scope);
  }

  // ----- what holds after settling -----

  ghost predicate ExactlyOneOpen(incidents: seq<Incident>, v: VersionId) {
    exists i ::
      && 0 <= i < |incidents| && incidents[i].open && incidents[i].version == v
      && forall j | 0 <= j < |incidents| && incidents[j].open && incidents[j].version == v :: j == i
  }

  // ----- what the columns of a held copy decide -----

  predicate HeldIn(s: Holds, f: FileId, v: VersionId, scope: Option<Path>) {
    && f in s.paths && (scope.None? || scope == Some(s.paths[f]))
    && f in s.copies && s.copies[f].hold == Some(v)
  }

  /** The held version can no longer be recovered. */
  predicate Unprotected(s: Holds, v: VersionId) {
    v !in s.versions || !s.versions[v].verified || !s.versions[v].available
  }

  predicate Comparable(c: Copy) {
    c.presence == Present && c.fileType == Regular && c.digest.Some?
  }

  /** Present, hashed, and not the content of the recoverable version it stands in for. */
  predicate Differs(s: Holds, f: FileId, v: VersionId) {
    f in s.copies && Comparable(s.copies[f]) && !Unprotected(s, v) && s.versions[v].digest != s.copies[f].digest
  }

  predicate Equals(s: Holds, f: FileId, v: VersionId) {
    f in s.copies && Comparable(s.copies[f]) && !Unprotected(s, v) && s.versions[v].digest == s.copies[f].digest
  }

  /** What becomes of a held copy in scope: let go, matched to the held version, or left alone. */
  lemma SettledRow(s: Holds, rows: seq<FileId>, scope: Option<Path>, f: FileId, v: VersionId)
    requires Selects(s, rows, scope) && HeldIn(s, f, v, scope)
    ensures var c := s.copies[f];
      f in Settle(s, rows, scope).copies && Settle(s, rows, scope).copies[f] ==
        if Unprotected(s, v) then c.(hold := None)
        else if Equals(s, f, v) then c.(matched := Some(v), hold := None)
        else c
  {
    assert InScope(s, f, scope);
  }

  /** Copies that are not held, or not in scope, are left alone. */
  lemma UnsettledRow(s: Holds, rows: seq<FileId>, scope: Option<Path>, f: FileId)
    requires Selects(s, rows, scope) && f in s.copies && forall v :: !HeldIn(s, f, v, scope)
    ensures f in Settle(s, rows, scope).copies && Settle(s, rows, scope).copies[f] == s.copies[f]
  {
    if InScope(s, f, scope) { assert HeldIn(s, f, s.copies[f].hold.value, scope); }
  }

  /** A present copy still holds the version of the conflict. */
  predicate HoldsStill(s: Holds, i: Incident) {
    i.file in s.copies && s.copies[i.file].presence == Present && s.copies[i.file].hold == Some(i.version)
  }

  lemma {:induction false} OpenedExtends(s: Holds, rows: seq<FileId>)
    ensures s.incidents <= Opened(s, rows)
  {
    if rows != [] { OpenedExtends(s, rows[..|rows| - 1]); }
  }

  /**
   After settling, every copy in scope that was held, present and hashed with another digest than its recoverable
   version has exactly one open conflict. Earlier conflicts are closed exactly if they are in scope and have no present
   copy that still holds their version, so every open conflict in scope has one.
   */
  lemma SettledConflicts(s: Holds, rows: seq<FileId>, scope: Option<Path>)
    requires Valid(s) && Selects(s, rows, scope)
    ensures var s' := Settle(s, rows, scope);
      && (forall f, v | HeldIn(s, f, v, scope) && Differs(s, f, v) :: ExactlyOneOpen(s'.incidents, v))
      && (forall i | 0 <= i < |s'.incidents| && s'.incidents[i].open &&
        (scope.Some? ==> s'.incidents[i].path == scope.value) ::
            && s'.incidents[i].file in s'.copies && s'.copies[s'.incidents[i].file].presence == Present
            && s'.copies[s'.incidents[i].file].hold == Some(s'.incidents[i].version))
      && |s.incidents| <= |s'.incidents|
      && (forall k | 0 <= k < |s.incidents| :: var i := s.incidents[k];
            s'.incidents[k] == if (scope.None? || scope == Some(i.path)) && !HoldsStill(s', i) then i.(open := false)
              else i)
  {
    var s' := Settle(s, rows, scope);
    OpenedExtends(s, rows);
    forall f, v | HeldIn(s, f, v, scope) && Differs(s, f, v) ensures ExactlyOneOpen(s'.incidents, v) {
      SettledRow(s, rows, scope, f, v);
      ConflictStaysOpen(s, rows, scope, f);
    }
  }

  lemma ConflictStaysOpen(s: Holds, rows: seq<FileId>, scope: Option<Path>, f: FileId)
    requires Valid(s) && Selects(s, rows, scope)
    requires InScope(Settle(s, rows, scope), f, scope) && Conflicts(Settle(s, rows, scope), f)
    ensures ExactlyOneOpen(Settle(s, rows, scope).incidents, Settle(s, rows, scope).copies[f].hold.value)
  {
    var s' := Settle(s, rows, scope);
    var v := s'.copies[f].hold.value;
    var raised := Opened(s, rows);
    assert s.copies[f].hold.Some? && InScope(s, f, scope);
    assert f in rows && Conflicts(s, f) && Held(s, f, v);
    OpenedFacts(s, rows, v);
    var i :| 0 <= i < |raised| && raised[i].open && raised[i].version == v;
    assert raised[i].file == f;
    assert s'.incidents[i] == Reviewed(raised[i], s'.copies, scope) == raised[i];
    forall j | 0 <= j < |s'.incidents| && s'.incidents[j].open && s'.incidents[j].version == v ensures j == i {
      assert raised[j].open && raised[j].version == v;
    }
  }

  /** Nothing is left to decide: what is still held waits for a hash or for the Owner. */
  lemma SettledRows(s: Holds, rows: seq<FileId>, scope: Option<Path>, f: FileId)
    requires Selects(s, rows, scope) && InScope(Settle(s, rows, scope), f, scope)
    ensures InScope(s, f, scope) && Settle(s, rows, scope).copies[f] == s.copies[f]
    ensures var verdict := Judge(s.copies[f], s.versions); verdict.Wait? || verdict.Conflict?
  {
  }

  lemma {:induction false} NothingToOpen(s: Holds, rows: seq<FileId>)
    requires forall f | f in rows :: Conflicts(s, f) ==> HasOpen(s.incidents, s.copies[f].hold.value)
    ensures Opened(s, rows) == s.incidents
  {
    if rows != [] {
      NothingToOpen(s, rows[..|rows| - 1]);
    }
  }

  /** Settling twice is settling once, in whatever order the rows come back the second time. */
  lemma SettleIsIdempotent(s: Holds, rows: seq<FileId>, again: seq<FileId>, scope: Option<Path>)
    requires Valid(s) && Selects(s, rows, scope) && Selects(Settle(s, rows, scope), again, scope)
    ensures Settle(Settle(s, rows, scope), again, scope) == Settle(s, rows, scope)
  {
    var s' := Settle(s, rows, scope);
    forall f | f in again
      ensures Settled(s'.copies[f], s'.versions) == s'.copies[f]
      ensures Conflicts(s', f) ==> HasOpen(s'.incidents, s'.copies[f].hold.value)
    {
      SettledRows(s, rows, scope, f);
      if Conflicts(s', f) {
        ConflictStaysOpen(s, rows, scope, f);
      }
    }
    NothingToOpen(s', again);
    assert SettledCopies(s', again) == s'.copies;
    assert Review(s'.incidents, s'.copies, scope) == s'.incidents;
  }

  // ----- the Owner's choice -----

  predicate OpenAt(i: Incident, path: Path) {
    i.open && i.path == path
  }

  /** The newest open conflict of a path, by id. */
  function Newest(incidents: seq<Incident>, path: Path): (r: Option<nat>)
    ensures r.Some? ==> r.value < |incidents| && OpenAt(incidents[r.value], path)
    ensures r.Some? ==> forall k | r.value < k < |incidents| :: !OpenAt(incidents[k], path)
    ensures r.None? ==> forall k | 0 <= k < |incidents| :: !OpenAt(incidents[k], path)
  {
    if incidents == [] then None
    else if OpenAt(incidents[|incidents| - 1], path) then Some(|incidents| - 1)
    else Newest(incidents[..|incidents| - 1], path)
  }

  function Lifted(s: Holds, i: nat): Holds
    requires i < |s.incidents| && s.incidents[i].file in s.copies
  {
    var f := s.incidents[i].file;
    s.(copies := s.copies[f := s.copies[f].(hold := None)],
      incidents := s.incidents[i := s.incidents[i].(open := false)])
  }

  /** Settling a path first leaves no open conflict there without content to release. */
  lemma ConfirmFindsContent(s: Holds, rows: seq<FileId>, path: Path)
    requires Valid(s) && Selects(s, rows, Some(path))
    ensures var s' := Settle(s, rows, Some(path)); var i := Newest(s'.incidents, path);
      i.Some? ==> Backed(s'.copies, s'.incidents[i.value])
  {
  }

  /** `confirm_cloud_only_replacement`: without an open conflict it changes nothing. */
  ghost function Confirmed(s: Holds, rows: seq<FileId>, path: Path): Holds
    requires Valid(s) && Selects(s, rows, Some(path))
  {
    var s' := Settle(s, rows, Some(path));
    var i := Newest(s'.incidents, path);
    ConfirmFindsContent(s, rows, path);
    if i.None? then s else Lifted(s', i.value)
  }

  // ----- runs -----

  datatype Step =
    | Observe(f: FileId, e: Entry, seen: Option<Time>, keeper: Option<VersionId>)
    | Hash(f: FileId, digest: Digest, matched: Option<VersionId>)
    | Vanish(f: FileId, at: Time)
    | Change(v: VersionId, version: Version)
    | Move(paths: map<FileId, Path>)
    | SettleAll(rows: seq<FileId>, scope: Option<Path>)
    | Confirm(rows: seq<FileId>, path: Path)

  ghost predicate Enabled(s: Holds, step: Step) {
    match step
    case Observe(f, _, _, keeper) => keeper.Some? ==> keeper.value in s.versions && s.versions[keeper.value].file == f
    case Hash(f, _, _) => f in s.copies
    case Vanish(f, _) => f in s.copies
    case Change(v, version) => if v in s.versions then version.file == s.versions[v].file else Unused(s, v)
    case Move(_) => true
    case SettleAll(rows, scope) => Selects(s, rows, scope)
    case Confirm(rows, path) => Selects(s, rows, Some(path))
  }

  /** A new version id is not mentioned anywhere yet. */
  predicate Unused(s: Holds, v: VersionId) {
    && (forall f | f in s.copies :: s.copies[f].hold != Some(v))
    && (forall i | 0 <= i < |s.incidents| :: s.incidents[i].version != v)
  }

  ghost function Apply(s: Holds, step: Step): Holds
    requires Valid(s) && Enabled(s, step)
  {
    match step
    case Observe(f, e, seen, keeper) =>
      s.(copies := s.copies[f := if f in s.copies then Refreshed(s.copies[f], e, seen, keeper)
        else Inserted(e, seen, keeper)])
    case Hash(f, digest, matched) => s.(copies := s.copies[f := s.copies[f].(digest := Some(digest),
      matched := matched)])
    case Vanish(f, at) => s.(copies := s.copies[f := s.copies[f].(presence := Absent, observed := at)])
    case Change(v, version) => s.(versions := s.versions[v := version])
    case Move(paths) => s.(paths := paths)
    case SettleAll(rows, scope) => Settle(s, rows, scope)
    case Confirm(rows, path) => Confirmed(s, rows, path)
  }

  lemma StepKeepsValid(s: Holds, step: Step)
    requires Valid(s) && Enabled(s, step)
    ensures Valid(Apply(s, step))
  {
    match step
    case SettleAll(rows, scope) => SettleKeepsValid(s, rows, scope);
    case Confirm(rows, path) =>
      SettleKeepsValid(s, rows, Some(path));
      ConfirmFindsContent(s, rows, path);
    case _ =>
  }

  /** The version the hold protects is gone, or the content proved to be the same. */
  predicate NothingToProtect(s: Holds, f: FileId, v: VersionId) {
    Unprotected(s, v) || Equals(s, f, v)
  }

  /** The Owner confirmed the replacement of this very version by this very copy. */
  ghost predicate Chosen(s: Holds, step: Step, f: FileId, v: VersionId) {
    && Valid(s) && Enabled(s, step) && step.Confirm?
    && var s' := Settle(s, step.rows, Some(step.path));
    && var i := Newest(s'.incidents, step.path);
    && i.Some? && s'.incidents[i.value].file == f && s'.incidents[i.value].version == v
  }

  ghost predicate Lifts(s: Holds, step: Step, f: FileId, v: VersionId) {
    || ((step.SettleAll? || step.Confirm?) && NothingToProtect(s, f, v))
    || Chosen(s, step, f, v)
  }

  predicate Stays(s: Holds, f: FileId) {
    f in s.copies && s.copies[f].presence.Present?
  }

  lemma OnlyThreeCauses(s: Holds, step: Step, f: FileId, v: VersionId)
    requires Valid(s) && Enabled(s, step) && Held(s, f, v) && Stays(s, f) && Stays(Apply(s, step), f)
    ensures Held(Apply(s, step), f, v) || Lifts(s, step, f, v)
  {
  }

  ghost predicate StepAt(run: seq<Holds>, steps: seq<Step>, k: nat) {
    k + 1 < |run| && k < |steps| && Valid(run[k]) && Enabled(run[k], steps[k]) && run[k + 1] == Apply(run[k], steps[k])
  }

  ghost predicate IsRun(run: seq<Holds>, steps: seq<Step>) {
    |run| == |steps| + 1 && Valid(run[0]) && forall k: nat | k < |steps| :: StepAt(run, steps, k)
  }

  ghost predicate LiftedAt(run: seq<Holds>, steps: seq<Step>, t: nat, f: FileId, v: VersionId) {
    t < |steps| && t < |run| && Lifts(run[t], steps[t], f, v)
  }

  /**
   While a reappeared copy stays present its hold lasts, until some step finds nothing left to protect or
   carries the Owner's confirmation for exactly that version.
   */
  lemma {:induction false} HoldLastsUntilDecided(run: seq<Holds>, steps: seq<Step>, a: nat, k: nat, f: FileId,
    v: VersionId)
    requires IsRun(run, steps) && a <= k < |run| && Held(run[a], f, v)
    requires forall t | a <= t <= k :: Stays(run[t], f)
    ensures Held(run[k], f, v) || exists t: nat :: a <= t < k && LiftedAt(run, steps, t, f, v)
    decreases k
  {
    if a < k {
      HoldLastsUntilDecided(run, steps, a, k - 1, f, v);
      if Held(run[k - 1], f, v) {
        assert StepAt(run, steps, k - 1);
        OnlyThreeCauses(run[k - 1], steps[k - 1], f, v);
        if !Held(run[k], f, v) {
          assert LiftedAt(run, steps, k - 1, f, v);
        }
      }
    }
  }

  /**
   A lifted hold never means a silent replacement: settling alone only lifts it onto the held version itself or onto
   nothing.
   */
  lemma SettlingNeverReplaces(s: Holds, rows: seq<FileId>, scope: Option<Path>, f: FileId, v: VersionId)
    requires Selects(s, rows, scope) && Held(s, f, v) && !Unprotected(s, v) && !Held(Settle(s, rows, scope), f, v)
    ensures Settle(s, rows, scope).copies[f].matched == Some(v)
    ensures s.copies[f].digest.Some? && s.versions[v].digest == s.copies[f].digest
  {
  }
}
