/** Version numbers order the history of a file: what recording, publication and reconnection keep. */
module VersionNumbers {
  import opened Common
  import opened VersionRows

  /** Numbers of one file are pairwise distinct. */
  predicate Unique(rows: map<Identity, Version>) {
    forall a, b | a in rows && b in rows && a != b && rows[a].file == rows[b].file :: rows[a].number != rows[b].number
  }

  /** The row is above every other row of its file. */
  predicate OnTop(rows: map<Identity, Version>, id: Identity) {
    id in rows && forall other | other in rows && other != id &&
      rows[other].file == rows[id].file :: rows[other].number < rows[id].number
  }

  /** The newest version of a file that is not purged: what a release or an upload compares with. */
  predicate Latest(rows: map<Identity, Version>, file: FileId, id: Identity) {
    && id in rows && rows[id].file == file && !rows[id].availability.Purged?
    && forall other | other in rows && rows[other].file == file &&
      !rows[other].availability.Purged? :: rows[other].number <= rows[id].number
  }

  /** The intent behind a receipt, as far as publication looks at it. */
  datatype Intent = Intent(file: FileId, sendStarted: bool, linked: Option<Identity>, snapshot: nat)

  /** The snapshot of a version is written once, and never after the fact for a verified version. */
  predicate TakesSnapshot(v: Version, snapshot: nat) {
    if v.snapshot.Some? then v.snapshot.value == snapshot else !v.integrity.Verified?
  }

  /** Publication pins the owning file: a moved path, a foreign identity or another snapshot is refused. */
  predicate Publishable(c: Catalog, id: Identity, path: Path, intent: Intent) {
    && path in c.current && c.current[path] == intent.file
    && (id in c.rows ==> c.rows[id].file == intent.file && TakesSnapshot(c.rows[id], intent.snapshot))
  }

  function Linked(intent: Intent, id: Identity): Intent {
    if intent.linked.None? then intent.(linked := Some(id)) else intent
  }

  /** The guard of the promotion: this very intent is linked, was sent, and owns the version and its snapshot. */
  predicate Promotes(v: Version, id: Identity, intent: Intent) {
    && v.origin.Discovered? && intent.linked == Some(id) && intent.file == v.file && intent.sendStarted
    && v.snapshot == Some(intent.snapshot)
  }

  /** A published receipt promotes a row that a scan had discovered first. */
  ghost function Promote(rows: map<Identity, Version>, id: Identity, intent: Intent): map<Identity, Version>
    requires id in rows
  {
    if Promotes(rows[id], id, intent) then
      rows[id := rows[id].(number := Newest(rows, rows[id].file) + 1, origin := Upload)]
    else rows
  }

  function WithSnapshot(rows: map<Identity, Version>, id: Identity, snapshot: nat): map<Identity, Version>
    requires id in rows
  {
    rows[id := rows[id].(snapshot := Some(snapshot))]
  }

  ghost function Published(c: Catalog, id: Identity, path: Path, intent: Intent, stamp: Time, tier: string): Catalog {
    var recorded := Record(c, id, path, Upload, stamp, stamp, tier);
    recorded.(rows := Promote(WithSnapshot(recorded.rows, id, intent.snapshot), id, Linked(intent, id)))
  }

  /** Reconnecting a bucket puts the newest listed version on top, unless it is there already. */
  ghost function Reconnected(rows: map<Identity, Version>, id: Identity): map<Identity, Version>
    requires id in rows
  {
    var newest := Newest(rows, rows[id].file);
    if rows[id].number < newest then rows[id := rows[id].(number := newest + 1)] else rows
  }

  // ----- bounds -----

  lemma NewestIsAbove(rows: map<Identity, Version>, id: Identity)
    requires id in rows
    ensures Oldest(rows, rows[id].file) <= rows[id].number <= Newest(rows, rows[id].file)
  {
    assert rows[id].number in Numbers(rows, rows[id].file);
  }

  lemma NewNumberIsNew(rows: map<Identity, Version>, file: FileId, origin: Origin, id: Identity)
    requires id in rows && rows[id].file == file
    ensures NewNumber(rows, file, origin) != rows[id].number
    ensures origin.Upload? || !HasKeeper(rows, file) ==> NewNumber(rows, file, origin) > rows[id].number
    ensures origin.Discovered? && HasKeeper(rows, file) ==> NewNumber(rows, file, origin) < rows[id].number
  {
    NewestIsAbove(rows, id);
  }

  lemma RecordKeepsUnique(c: Catalog, id: Identity, path: Path, origin: Origin, scan: Time, now: Time, tier: string)
    requires Unique(c.rows)
    ensures Unique(Record(c, id, path, origin, scan, now, tier).rows)
  {
    var file := OwnerOf(c, path);
    if id !in c.rows {
      forall other | other in c.rows && c.rows[other].file == file
        ensures c.rows[other].number != NewNumber(c.rows, file, origin) {
        NewNumberIsNew(c.rows, file, origin, other);
      }
    }
  }

  lemma RaiseKeepsUnique(rows: map<Identity, Version>, id: Identity, rows': map<Identity, Version>)
    requires Unique(rows) && id in rows
    requires id in rows' && rows' == rows[id := rows'[id]] && rows'[id].file == rows[id].file
    requires rows'[id].number == Newest(rows, rows[id].file) + 1
    ensures Unique(rows') && OnTop(rows', id)
  {
    forall other | other in rows && rows[other].file == rows[id].file ensures rows[other].number < rows'[id].number {
      NewestIsAbove(rows, other);
    }
  }

  // ----- runs -----

  datatype Step =
    | Discover(id: Identity, path: Path, scan: Time, now: Time, tier: string)
    | Publish(id: Identity, path: Path, intent: Intent, stamp: Time, tier: string)
    | Reconnect(id: Identity)
    | Update(id: Identity, v: Version)            // availability, integrity, class: anything but identity and order
    | Rename(current: map<Path, FileId>, history: map<Path, FileId>, next: FileId)

  predicate Enabled(c: Catalog, step: Step) {
    match step
    case Discover(_, _, _, _, _) => true
    case Publish(id, path, intent, _, _) => Publishable(c, id, path, intent)
    case Reconnect(id) => id in c.rows
    case Update(id, v) => id in c.rows && v.file == c.rows[id].file && v.number == c.rows[id].number &&
      v.origin == c.rows[id].origin
    case Rename(_, _, _) => true
  }

  ghost function Apply(c: Catalog, step: Step): Catalog
    requires Enabled(c, step)
  {
    match step
    case Discover(id, path, scan, now, tier) => Record(c, id, path, Discovered, scan, now, tier)
    case Publish(id, path, intent, stamp, tier) => Published(c, id, path, intent, stamp, tier)
    case Reconnect(id) => c.(rows := Reconnected(c.rows, id))
    case Update(id, v) => c.(rows := c.rows[id := v])
    case Rename(current, history, next) => c.(current := current, history := history, next := next)
  }

  lemma PublishKeepsUnique(c: Catalog, id: Identity, path: Path, intent: Intent, stamp: Time, tier: string)
    requires Unique(c.rows)
    ensures Unique(Published(c, id, path, intent, stamp, tier).rows)
  {
    RecordKeepsUnique(c, id, path, Upload, stamp, stamp, tier);
    var rows := WithSnapshot(Record(c, id, path, Upload, stamp, stamp, tier).rows, id, intent.snapshot);
    assert Unique(rows);
    if Promotes(rows[id], id, Linked(intent, id)) {
      RaiseKeepsUnique(rows, id, Promote(rows, id, Linked(intent, id)));
    }
  }

  lemma StepKeepsUnique(c: Catalog, step: Step)
    requires Enabled(c, step) && Unique(c.rows)
    ensures Unique(Apply(c, step).rows)
  {
    match step
    case Discover(id, path, scan, now, tier) => RecordKeepsUnique(c, id, path, Discovered, scan, now, tier);
    case Publish(id, path, intent, stamp, tier) => PublishKeepsUnique(c, id, path, intent, stamp, tier);
    case Reconnect(id) =>
      if c.rows[id].number < Newest(c.rows, c.rows[id].file) {
        RaiseKeepsUnique(c.rows, id, Reconnected(c.rows, id));
      }
    case _ =>
  }

  ghost predicate Enables(c: Catalog, steps: seq<Step>)
    decreases |steps|
  {
    steps == [] || (Enabled(c, steps[0]) && Enables(Apply(c, steps[0]), steps[1..]))
  }

  ghost function After(c: Catalog, steps: seq<Step>): Catalog
    requires Enables(c, steps)
    decreases |steps|
  {
    if steps == [] then c else After(Apply(c, steps[0]), steps[1..])
  }

  /** Over any sequence of recordings, publications and reconnections the numbers of a file stay distinct. */
  lemma {:induction false} NumbersStayDistinct(c: Catalog, steps: seq<Step>)
    requires Unique(c.rows) && Enables(c, steps)
    ensures Unique(After(c, steps).rows)
    decreases |steps|
  {
    if steps != [] {
      StepKeepsUnique(c, steps[0]);
      NumbersStayDistinct(Apply(c, steps[0]), steps[1..]);
    }
  }

  // ----- who is on top -----

  /** Some version of the file is verified and available. */
  ghost predicate Kept(rows: map<Identity, Version>, file: FileId) {
    exists id ::
      id in rows && rows[id].file == file && rows[id].integrity == Verified && rows[id].availability == Available
  }

  lemma KeptInColumns(rows: map<Identity, Version>, file: FileId)
    ensures HasKeeper(rows, file) <==> Kept(rows, file)
  {
  }

  /**
   A previously unknown discovered version displaces the newest non-purged version of its file exactly when
   the file has no verified, available keeper.
   */
  lemma DiscoveryAndTheLatest(c: Catalog, id: Identity, path: Path, scan: Time, now: Time, tier: string,
    latest: Identity)
    requires id !in c.rows && Latest(c.rows, OwnerOf(c, path), latest)
    ensures var rows' := Record(c, id, path, Discovered, scan, now, tier).rows;
      && (Latest(rows', OwnerOf(c, path), latest) <==> Kept(c.rows, OwnerOf(c, path)))
      && (Latest(rows', OwnerOf(c, path), id) <==> !Kept(c.rows, OwnerOf(c, path)))
  {
    var file := OwnerOf(c, path);
    var rows' := Record(c, id, path, Discovered, scan, now, tier).rows;
    KeptInColumns(c.rows, file);
    forall other | other in c.rows && c.rows[other].file == file
      ensures if HasKeeper(c.rows, file) then rows'[id].number < c.rows[other].number
        else rows'[id].number > c.rows[other].number
    {
      NewNumberIsNew(c.rows, file, Discovered, other);
    }
  }

  /** Whether publication promotes a row that is already there. */
  predicate Promoted(c: Catalog, id: Identity, intent: Intent) {
    && id in c.rows && c.rows[id].origin.Discovered? && intent.sendStarted
    && (intent.linked.None? || intent.linked == Some(id))
  }

  lemma PublishedRow(c: Catalog, id: Identity, path: Path, intent: Intent, stamp: Time, tier: string)
    requires Publishable(c, id, path, intent) && Unique(c.rows) && id in c.rows
    ensures var rows' := Published(c, id, path, intent, stamp, tier).rows;
      && (Promoted(c, id, intent) ==> OnTop(rows', id) && rows'[id].origin.Upload?)
      && (!Promoted(c, id, intent) ==>
            forall k | k in c.rows :: k in rows' && rows'[k].number == c.rows[k].number &&
              rows'[k].file == c.rows[k].file)
      && rows'.Keys == c.rows.Keys && rows'[id].availability.Available? && rows'[id].file == intent.file
  {
    RecordKeepsUnique(c, id, path, Upload, stamp, stamp, tier);
    var rows := WithSnapshot(Record(c, id, path, Upload, stamp, stamp, tier).rows, id, intent.snapshot);
    if Promotes(rows[id], id, Linked(intent, id)) {
      assert Unique(rows);
      RaiseKeepsUnique(rows, id, Promote(rows, id, Linked(intent, id)));
    }
  }

  /**
   Publishing a receipt leaves its version strictly above every other version of the file exactly when the version
   is new to the catalog, its started and unclaimed intent promotes it, or it was on top already. So the first
   publication of a sent intent always ends on top.
   */
  lemma FirstPublicationIsOnTop(c: Catalog, id: Identity, path: Path, intent: Intent, stamp: Time, tier: string)
    requires Publishable(c, id, path, intent) && Unique(c.rows)
    ensures var rows' := Published(c, id, path, intent, stamp, tier).rows;
      && (OnTop(rows', id) <==> id !in c.rows || Promoted(c, id, intent) || OnTop(c.rows, id))
      && (OnTop(rows', id) ==> Latest(rows', intent.file, id))
  {
    var rows' := Published(c, id, path, intent, stamp, tier).rows;
    if id in c.rows {
      PublishedRow(c, id, path, intent, stamp, tier);
    } else {
      forall other | other in c.rows && c.rows[other].file == intent.file
        ensures c.rows[other].number < rows'[id].number {
        NewNumberIsNew(c.rows, intent.file, Upload, other);
      }
    }
  }

  /** Publishing the same receipt again moves nothing. */
  lemma RepublicationKeepsOrder(c: Catalog, id: Identity, path: Path, intent: Intent, stamp: Time, tier: string,
    other: Identity)
    requires Publishable(c, id, path, intent) && id in c.rows && c.rows[id].origin.Upload? && other in c.rows
    ensures var rows' := Published(c, id, path, intent, stamp, tier).rows;
      other in rows' && rows'[other].number == c.rows[other].number && rows'[other].file == c.rows[other].file
  {
  }

  lemma ReconnectedIsOnTop(rows: map<Identity, Version>, id: Identity)
    requires id in rows && Unique(rows)
    ensures OnTop(Reconnected(rows, id), id)
  {
    if rows[id].number < Newest(rows, rows[id].file) {
      RaiseKeepsUnique(rows, id, Reconnected(rows, id));
    } else {
      forall other | other in rows && other != id && rows[other].file == rows[id].file
        ensures rows[other].number < rows[id].number {
        NewestIsAbove(rows, other);
      }
    }
  }
}
