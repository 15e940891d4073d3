/** Archive Version rows of one Vault, keyed by their exact provider identity, and the catalog's writes to them. */
module VersionRows {
  import opened Common

  type Identity = Target

  datatype Origin = Upload | Discovered
  datatype Source = FromUpload | FromListing | Manual | Unrecorded

  datatype Version = Version(
    file: FileId,
    number: int,
    origin: Origin,
    integrity: Integrity,
    availability: Availability,
    checked: Option<Time>,            // availability_checked_at
    discovered: Time,
    tier: string,                     // storage class
    source: Source,
    snapshot: Option<nat>)            // upload_snapshot_json, once an upload has published the version

  /** `next` bounds the ids in use; `history` is the latest active owner of a path that is no longer current. */
  datatype Catalog = Catalog(
    rows: map<Identity, Version>,
    current: map<Path, FileId>,
    history: map<Path, FileId>,
    next: FileId)

  predicate Live(v: Version) {
    v.availability.Available? || v.availability.Unknown?
  }

  predicate Keeper(v: Version) {
    v.integrity.Verified? && v.availability.Available?
  }

  // ----- numbering -----

  ghost function Numbers(rows: map<Identity, Version>, file: FileId): set<int> {
    set id | id in rows && rows[id].file == file :: rows[id].number
  }

  ghost predicate IsMax(s: set<int>, m: int) {
    m in s && forall x | x in s :: x <= m
  }

  ghost predicate IsMin(s: set<int>, m: int) {
    m in s && forall x | x in s :: m <= x
  }

  lemma {:induction false} BoundsExist(s: set<int>, x: int)
    requires x in s
    ensures (exists m :: IsMax(s, m)) && (exists m :: IsMin(s, m))
    decreases |s|
  {
    var rest := s - {x};
    if y :| y in rest {
      BoundsExist(rest, y);
      var hi, lo :| IsMax(rest, hi) && IsMin(rest, lo);
      var top, bottom := if x > hi then x else hi, if x < lo then x else lo;
      assert forall z | z in s :: z == x || z in rest;
      assert IsMax(s, top) && IsMin(s, bottom);
    } else {
      assert forall z | z in s :: z == x || z in rest;
      assert IsMax(s, x) && IsMin(s, x);
    }
  }

  /** COALESCE(MAX(version_number), 0) of a file. */
  ghost function Newest(rows: map<Identity, Version>, file: FileId): (n: int)
    ensures Numbers(rows, file) == {} ==> n == 0
    ensures Numbers(rows, file) != {} ==> IsMax(Numbers(rows, file), n)
  {
    var s := Numbers(rows, file);
    if s == {} then 0 else var x :| x in s; BoundsExist(s, x); var m :| IsMax(s, m); m
  }

  ghost function Oldest(rows: map<Identity, Version>, file: FileId): (n: int)
    ensures Numbers(rows, file) == {} ==> n == 0
    ensures Numbers(rows, file) != {} ==> IsMin(Numbers(rows, file), n)
  {
    var s := Numbers(rows, file);
    if s == {} then 0 else var x :| x in s; BoundsExist(s, x); var m :| IsMin(s, m); m
  }

  predicate HasKeeper(rows: map<Identity, Version>, file: FileId) {
    exists id | id in rows :: rows[id].file == file && Keeper(rows[id])
  }

  /** A discovered version goes below everything as long as the file has a verified, available keeper. */
  ghost function NewNumber(rows: map<Identity, Version>, file: FileId, origin: Origin): int {
    if origin.Discovered? && HasKeeper(rows, file) then
      (if Oldest(rows, file) < 0 then Oldest(rows, file) else 0) - 1
    else
      Newest(rows, file) + 1
  }

  // ----- recording -----

  /** Seeing a catalogued identity again; a class set by hand keeps its source. */
  function Seen(v: Version, scan: Time, tier: string): Version {
    v.(availability := Available, checked := Some(scan), tier := tier,
       source := if tier != "" && tier != v.tier && !v.source.Manual? then FromListing else v.source)
  }

  /** The file a cloud path belongs to: its current owner, else its latest active one, else a new identity. */
  function OwnerOf(c: Catalog, path: Path): FileId {
    if path in c.current then c.current[path]
    else if path in c.history then c.history[path]
    else c.next
  }

  function Adopt(c: Catalog, path: Path): Catalog {
    if path in c.current || path in c.history then c
    else c.(current := c.current[path := c.next], next := c.next + 1)
  }

  function NewRow(file: FileId, number: int, origin: Origin, scan: Time, now: Time, tier: string): Version {
    Version(file, number, origin, Unverified, Available, Some(scan), now, tier,
            if origin.Upload? then FromUpload else FromListing, None)
  }

  ghost function Record(c: Catalog, id: Identity, path: Path, origin: Origin, scan: Time, now: Time,
    tier: string): Catalog {
    if id in c.rows then
      c.(rows := c.rows[id := Seen(c.rows[id], scan, tier)])
    else
      var file := OwnerOf(c, path);
      Adopt(c, path).(rows := c.rows[id := NewRow(file, NewNumber(c.rows, file, origin), origin, scan, now, tier)])
  }

  /** Not seen in this scan, and known before it started. */
  predicate Unseen(v: Version, scan: Time) {
    v.checked != Some(scan) && v.discovered <= scan
  }

  predicate Superseded(v: Version, file: FileId, scan: Time, uploading: set<FileId>) {
    v.file == file && Live(v) && Unseen(v, scan) && v.file !in uploading
  }

  function Supersede(rows: map<Identity, Version>, kept: Identity, scan: Time, uploading: set<FileId>): map<Identity,
    Version>
    requires kept in rows
  {
    map id | id in rows ::
      if id != kept && Superseded(rows[id], rows[kept].file, scan, uploading)
      then rows[id].(availability := Purged, checked := Some(scan)) else rows[id]
  }

  predicate Lost(v: Version, scan: Time, uploading: set<FileId>) {
    !v.availability.Purged? && Unseen(v, scan) && v.file !in uploading
  }

  function MarkMissing(rows: map<Identity, Version>, scan: Time, uploading: set<FileId>): map<Identity, Version> {
    map id | id in rows ::
      if Lost(rows[id], scan, uploading) then rows[id].(availability := Missing, checked := Some(scan)) else rows[id]
  }
}
