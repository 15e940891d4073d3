/**
 A local scan commits its observations in batches and journals what it overwrites, once per path. When the
 scan loses its proof of the root, the journal is played back over every row that still carries the scan's stamp.
 */
module ScanJournal {
  import opened Common
  import opened LocalCopies

  /** What the catalog knew of a path before the scan touched it. */
  datatype Snapshot = Nobody | Somebody(file: FileId, copy: Option<Copy>)

  type Journal = map<Path, Snapshot>

  function SnapshotOf(s: Local, p: Path): Snapshot {
    if p in s.paths then Somebody(s.paths[p], Lookup(s, s.paths[p])) else Nobody
  }

  // ----- the scan -----

  function PathsOf(entries: seq<Entry>): set<Path> {
    set k | 0 <= k < |entries| :: entries[k].path
  }

  function Journaled(j: Journal, s: Local, entries: seq<Entry>): Journal {
    map p | p in j.Keys + PathsOf(entries) :: if p in j then j[p] else SnapshotOf(s, p)
  }

  function Owners(s: Local, paths: set<Path>): set<FileId> {
    set p | p in paths && p in s.paths :: s.paths[p]
  }

  function Invalidated(s: Local, paths: set<Path>, scan: Time): Local {
    s.(copies := map f | f in s.copies ::
         if f in Owners(s, paths) then s.copies[f].(content := Some(scan), digest := None, matched := None)
           else s.copies[f])
  }

  /** One committed batch; some of its paths may have their fingerprints invalidated. */
  datatype Chunk = Chunk(entries: seq<Entry>, invalid: set<Path>)

  function Flushed(s: Local, b: Chunk, scan: Time): Local
    requires Valid(s)
  {
    Invalidated(Batch(s, b.entries, Some(scan)), b.invalid, scan)
  }

  /** A hash computed outside any transaction, published only over the row it was computed for. */
  datatype Update = Update(file: FileId, oldSize: Option<int>, oldMtime: Option<int>, size: int, mtime: int,
    digest: Digest, at: Time)

  predicate Applies(c: Copy, u: Update) {
    c.presence.Present? && c.fileType.Regular? && c.digest.None? && c.size == u.oldSize && c.mtime == u.oldMtime
  }

  function Fingerprinted(c: Copy, u: Update, scan: Time): Copy {
    c.(content := if c.size == Some(u.size) && c.mtime == Some(u.mtime) then c.content else Some(u.at),
       size := Some(u.size), mtime := Some(u.mtime), digest := Some(u.digest), matched := None,
       lastSeen := Some(scan), observed := u.at)
  }

  function Published(s: Local, u: Update, scan: Time): Local {
    if u.file in s.copies && Applies(s.copies[u.file], u)
    then s.(copies := s.copies[u.file := Fingerprinted(s.copies[u.file], u, scan)]) else s
  }

  // ----- the rollback -----

  function FileOf(s: Local, p: Path, snapshot: Snapshot): Option<FileId> {
    if snapshot.Somebody? then Some(snapshot.file) else if p in s.paths then Some(s.paths[p]) else None
  }

  /** What the compensation does to one row: nothing unless it still carries the scan's stamp. */
  function Undo(copy: Option<Copy>, snapshot: Snapshot, scan: Time, attached: bool): Option<Copy> {
    if copy.None? || copy.value.lastSeen != Some(scan) then copy
    else match snapshot
      case Nobody => if attached then copy else None
      case Somebody(_, None) => None
      case Somebody(_, Some(c)) => Some(c.(hold := copy.value.hold))
  }

  function WithRow(s: Local, f: FileId, row: Option<Copy>): Local {
    if row.Some? then s.(copies := s.copies[f := row.value]) else s.(copies := s.copies - {f})
  }

  /** A scan-only identity that nothing has attached to goes away with its row. */
  predicate Forgets(s: Local, p: Path, snapshot: Snapshot, scan: Time, attached: set<FileId>) {
    && snapshot.Nobody? && p in s.paths && s.paths[p] !in attached
    && s.paths[p] in s.copies && s.copies[s.paths[p]].lastSeen == Some(scan)
  }

  function UndoPath(s: Local, p: Path, snapshot: Snapshot, scan: Time, attached: set<FileId>): Local {
    var f := FileOf(s, p, snapshot);
    if f.None? then s
    else
      var t := WithRow(s, f.value, Undo(Lookup(s, f.value), snapshot, scan, f.value in attached));
      if Forgets(s, p, snapshot, scan, attached) then t.(paths := t.paths - {p}) else t
  }

  function RolledBack(s: Local, order: seq<Path>, j: Journal, scan: Time, attached: set<FileId>): Local
    requires forall p | p in order :: p in j
  {
    if order == [] then s
    else
      var last := order[|order| - 1];
      UndoPath(RolledBack(s, order[..|order| - 1], j, scan, attached), last, j[last], scan, attached)
  }

  // ----- what a batch touches -----

  lemma BatchTouches(s: Local, entries: seq<Entry>, scan: Time)
    requires Valid(s)
    ensures var t := Batch(s, entries, Some(scan));
      && Valid(t) && s.next <= t.next
      && (forall p | p in s.paths :: p in t.paths && t.paths[p] == s.paths[p])
      && (forall p | p in t.paths && p !in s.paths :: s.next <= t.paths[p] && HasPath(entries, p))
      && (forall p | HasPath(entries, p) :: p in t.paths)
  {
    var last := LastByPath(entries);
    LastByPathFacts(entries);
    ResolveAllFacts(s, last);
    BulkIsFold(s, last);
    var r, t := ResolveAll(s, last), Batch(s, entries, Some(scan));
    forall f | f in t.copies ensures f < t.next {
      if f in Targets(r, last) {
        var k :| 0 <= k < |last| && r.paths[last[k].path] == f;
      }
    }
    forall p | HasPath(entries, p) ensures p in t.paths {
      assert HasPath(last, p);
    }
  }

  lemma PathsOfMeans(entries: seq<Entry>, p: Path)
    ensures p in PathsOf(entries) <==> HasPath(entries, p)
  {
  }

  lemma OwnersAreTargets(r: Local, entries: seq<Entry>)
    requires Known(r, LastByPath(entries))
    ensures Owners(r, PathsOf(entries)) == Targets(r, LastByPath(entries))
  {
    var last := LastByPath(entries);
    LastByPathFacts(entries);
    forall p ensures p in PathsOf(entries) <==> p in PathsOf(last) {
      PathsOfMeans(entries, p);
      PathsOfMeans(last, p);
    }
    assert Owners(r, PathsOf(last)) == Targets(r, last);
  }

  /** A batch stamps the files it observes and leaves every other row alone. */
  lemma BatchRow(s: Local, entries: seq<Entry>, scan: Time, f: FileId)
    requires Valid(s)
    ensures var t := Batch(s, entries, Some(scan));
      if f in Owners(t, PathsOf(entries)) then f in t.copies && t.copies[f].lastSeen == Some(scan)
      else Lookup(t, f) == Lookup(s, f)
  {
    var r := ResolveAll(s, LastByPath(entries));
    LastByPathFacts(entries);
    ResolveAllFacts(s, LastByPath(entries));
    BulkIsFold(s, LastByPath(entries));
    OwnersAreTargets(r, entries);
    FindMeans(r, LastByPath(entries), f);
  }

  lemma FlushTouches(s: Local, b: Chunk, scan: Time)
    requires Valid(s)
    ensures var t := Flushed(s, b, scan);
      && Valid(t) && s.next <= t.next
      && (forall p | p in s.paths :: p in t.paths && t.paths[p] == s.paths[p])
      && (forall p | p in t.paths && p !in s.paths :: s.next <= t.paths[p] && p in PathsOf(b.entries))
      && (forall p | p in PathsOf(b.entries) :: p in t.paths)
  {
    BatchTouches(s, b.entries, scan);
  }

  lemma FlushRow(s: Local, b: Chunk, scan: Time, f: FileId)
    requires Valid(s) && b.invalid <= PathsOf(b.entries)
    ensures var t := Flushed(s, b, scan);
      if f in Owners(t, PathsOf(b.entries)) then f in t.copies && t.copies[f].lastSeen == Some(scan)
      else Lookup(t, f) == Lookup(s, f)
  {
    BatchRow(s, b.entries, scan, f);
  }

  // ----- the invariant of a scan -----

  datatype Scan = Scan(local: Local, journal: Journal)

  predicate Sound(chunks: seq<Chunk>) {
    forall k | 0 <= k < |chunks| :: chunks[k].invalid <= PathsOf(chunks[k].entries)
  }

  function Committed(s0: Local, chunks: seq<Chunk>, scan: Time): (r: Scan)
    requires Valid(s0)
    ensures Valid(r.local)
  {
    if chunks == [] then Scan(s0, map[])
    else
      var before, b := Committed(s0, chunks[..|chunks| - 1], scan), chunks[|chunks| - 1];
      FlushTouches(before.local, b, scan);
      Scan(Flushed(before.local, b, scan), Journaled(before.journal, before.local, b.entries))
  }

  /** Paths: known ones stay, new ones are journaled as unknown. Rows: journaled ones are stamped, others as before. */
  ghost predicate Inv(s0: Local, r: Scan, scan: Time) {
    && InvPaths(s0, r)
    && (forall p | p in r.journal :: StampedPath(r.local, p, scan))
    && (forall f :: f !in Owners(r.local, r.journal.Keys) ==> Lookup(r.local, f) == Lookup(s0, f))
  }

  predicate StampedPath(s: Local, p: Path, scan: Time) {
    p in s.paths && s.paths[p] in s.copies && s.copies[s.paths[p]].lastSeen == Some(scan)
  }

  predicate InvPaths(s0: Local, r: Scan) {
    && Valid(r.local) && s0.next <= r.local.next
    && (forall p | p in s0.paths :: p in r.local.paths && r.local.paths[p] == s0.paths[p])
    && (forall p | p in r.local.paths && p !in s0.paths :: p in r.journal && s0.next <= r.local.paths[p])
    && (forall p | p in r.journal :: p in r.local.paths && r.journal[p] == SnapshotOf(s0, p))
  }

  lemma SnapshotIsOriginal(s0: Local, r: Scan, scan: Time, p: Path)
    requires Valid(s0) && Inv(s0, r, scan) && p !in r.journal
    ensures SnapshotOf(r.local, p) == SnapshotOf(s0, p)
  {
  }

  lemma InvPathsStep(s0: Local, r: Scan, b: Chunk, scan: Time, r': Scan)
    requires Valid(s0) && Inv(s0, r, scan) && b.invalid <= PathsOf(b.entries)
    requires r' == Scan(Flushed(r.local, b, scan), Journaled(r.journal, r.local, b.entries))
    ensures InvPaths(s0, r')
  {
    FlushTouches(r.local, b, scan);
    forall p | p in r'.journal ensures r'.journal[p] == SnapshotOf(s0, p) {
      if p !in r.journal {
        SnapshotIsOriginal(s0, r, scan, p);
      }
    }
  }

  lemma InvRowsStep(s0: Local, r: Scan, b: Chunk, scan: Time, r': Scan)
    requires Valid(s0) && Inv(s0, r, scan) && b.invalid <= PathsOf(b.entries)
    requires r' == Scan(Flushed(r.local, b, scan), Journaled(r.journal, r.local, b.entries))
    ensures Inv(s0, r', scan)
  {
    InvPathsStep(s0, r, b, scan, r');
    FlushTouches(r.local, b, scan);
    forall p | p in r'.journal ensures StampedPath(r'.local, p, scan) {
      FlushRow(r.local, b, scan, r'.local.paths[p]);
      if p !in PathsOf(b.entries) {
        assert StampedPath(r.local, p, scan);
      }
    }
    forall f | f !in Owners(r'.local, r'.journal.Keys) ensures Lookup(r'.local, f) == Lookup(s0, f) {
      FlushRow(r.local, b, scan, f);
      OwnersGrow(r.local, r'.local, r.journal.Keys, r'.journal.Keys, f);
      OwnersGrow(r'.local, r'.local, PathsOf(b.entries), r'.journal.Keys, f);
    }
  }

  lemma OwnersGrow(s: Local, t: Local, a: set<Path>, b: set<Path>, f: FileId)
    requires a <= b && forall p | p in s.paths :: p in t.paths && t.paths[p] == s.paths[p]
    ensures f in Owners(s, a) ==> f in Owners(t, b)
  {
  }

  lemma {:induction false} InvHolds(s0: Local, chunks: seq<Chunk>, scan: Time)
    requires Valid(s0) && Sound(chunks)
    ensures Inv(s0, Committed(s0, chunks, scan), scan)
  {
    if chunks != [] {
      var front, b := chunks[..|chunks| - 1], chunks[|chunks| - 1];
      InvHolds(s0, front, scan);
      InvRowsStep(s0, Committed(s0, front, scan), b, scan, Committed(s0, chunks, scan));
    }
  }

  // ----- publishing fingerprints -----

  function AllPublished(s: Local, updates: seq<Update>, scan: Time): Local {
    if updates == [] then s
    else Published(AllPublished(s, updates[..|updates| - 1], scan), updates[|updates| - 1], scan)
  }

  /** The update was computed for this very row: present, regular, not hashed yet, with the size and time it read. */
  predicate Fresh(c: Copy, u: Update, f: FileId) {
    && u.file == f && c.presence == Present && c.fileType == Regular && c.digest == None
    && c.size == u.oldSize && c.mtime == u.oldMtime
  }

  /** Some published update matches the row. */
  predicate Hit(updates: seq<Update>, f: FileId, c: Copy) {
    exists k :: 0 <= k < |updates| && Fresh(c, updates[k], f)
  }

  lemma HitSplit(updates: seq<Update>, f: FileId, c: Copy)
    requires updates != []
    ensures Hit(updates, f, c) <==> Hit(updates[..|updates| - 1], f, c) || Fresh(c, updates[|updates| - 1], f)
  {
  }

  /** The row carries the hash of the update, with the size and time it was computed for, and the scan's stamp. */
  predicate HashedBy(c: Copy, c': Copy, u: Update, scan: Time) {
    && c'.digest == Some(u.digest) && c'.size == Some(u.size) && c'.mtime == Some(u.mtime) && c'.matched == None
    && c'.lastSeen == Some(scan) && c'.observed == u.at && c'.presence == c.presence && c'.fileType == c.fileType
    && c'.hold == c.hold
    && c'.content == if c.size == Some(u.size) && c.mtime == Some(u.mtime) then c.content else Some(u.at)
  }

  /** The first update that was computed for the row is published over it, and no other one. */
  predicate FirstHit(updates: seq<Update>, f: FileId, c: Copy, c': Copy, scan: Time) {
    exists k :: 0 <= k < |updates| && Fresh(c, updates[k], f) && HashedBy(c, c', updates[k], scan)
      && forall j | 0 <= j < k :: !Fresh(c, updates[j], f)
  }

  /** The row was hashed by this scan, or is as it was. */
  predicate HashedOrSame(updates: seq<Update>, f: FileId, c: Copy, c': Copy, scan: Time) {
    if Hit(updates, f, c) then FirstHit(updates, f, c, c', scan) else c' == c
  }

  lemma RowPublished(updates: seq<Update>, f: FileId, c: Copy, t: Local, scan: Time)
    requires updates != [] && f in t.copies && HashedOrSame(updates[..|updates| - 1], f, c, t.copies[f], scan)
    ensures f in Published(t, updates[|updates| - 1], scan).copies
    ensures HashedOrSame(updates, f, c, Published(t, updates[|updates| - 1], scan).copies[f], scan)
  {
    var front, u := updates[..|updates| - 1], updates[|updates| - 1];
    var c' := Published(t, u, scan).copies[f];
    HitSplit(updates, f, c);
    assert forall k | 0 <= k < |front| :: front[k] == updates[k];
    if Hit(front, f, c) {
      var k :| 0 <= k < |front| && Fresh(c, front[k], f) && HashedBy(c, t.copies[f], front[k], scan)
        && forall j | 0 <= j < k :: !Fresh(c, front[j], f);
      assert c' == t.copies[f] && Fresh(c, updates[k], f) && HashedBy(c, c', updates[k], scan);
      assert forall j | 0 <= j < k :: !Fresh(c, updates[j], f);
    } else if Fresh(c, u, f) {
      assert HashedBy(c, c', u, scan);
      assert forall j | 0 <= j < |front| :: !Fresh(c, updates[j], f);
    }
  }

  lemma {:induction false} PublishedFacts(s: Local, updates: seq<Update>, scan: Time)
    requires Valid(s)
    ensures var t := AllPublished(s, updates, scan);
      && Valid(t) && t.paths == s.paths && t.next == s.next && t.copies.Keys == s.copies.Keys
      && (forall f | f in s.copies :: HashedOrSame(updates, f, s.copies[f], t.copies[f], scan))
  {
    if updates != [] {
      var front := updates[..|updates| - 1];
      PublishedFacts(s, front, scan);
      var t, t' := AllPublished(s, front, scan), AllPublished(s, updates, scan);
      forall f | f in s.copies ensures HashedOrSame(updates, f, s.copies[f], t'.copies[f], scan) {
        assert HashedOrSame(front, f, s.copies[f], t.copies[f], scan);
        RowPublished(updates, f, s.copies[f], t, scan);
      }
    }
  }

  /** A complete run up to the moment its proof is lost. */
  function Scanned(s0: Local, chunks: seq<Chunk>, updates: seq<Update>, scan: Time): Scan
    requires Valid(s0)
  {
    var r := Committed(s0, chunks, scan);
    r.(local := AllPublished(r.local, updates, scan))
  }

  ghost predicate InvAfter(s0: Local, r: Scan, updates: seq<Update>, scan: Time) {
    && InvPaths(s0, r)
    && (forall p | p in r.journal :: StampedPath(r.local, p, scan))
    && (forall f :: f !in Owners(r.local, r.journal.Keys) ==> Outside(s0, r.local, updates, scan, f))
  }

  /** A row the journal does not cover. */
  predicate Outside(s0: Local, s: Local, updates: seq<Update>, scan: Time, f: FileId) {
    if f in s0.copies then f in s.copies && HashedOrSame(updates, f, s0.copies[f], s.copies[f], scan)
      else f !in s.copies
  }

  lemma ScannedInv(s0: Local, chunks: seq<Chunk>, updates: seq<Update>, scan: Time)
    requires Valid(s0) && Sound(chunks)
    ensures InvAfter(s0, Scanned(s0, chunks, updates, scan), updates, scan)
  {
    var r, r' := Committed(s0, chunks, scan), Scanned(s0, chunks, updates, scan);
    InvHolds(s0, chunks, scan);
    PublishedFacts(r.local, updates, scan);
    forall p | p in r'.journal ensures StampedPath(r'.local, p, scan) {
      assert StampedPath(r.local, p, scan);
    }
    assert Owners(r'.local, r'.journal.Keys) == Owners(r.local, r.journal.Keys);
    forall f | f !in Owners(r'.local, r'.journal.Keys) ensures Outside(s0, r'.local, updates, scan, f) {
      assert Lookup(r.local, f) == Lookup(s0, f);
    }
  }

  // ----- playing the journal back -----

  /** Every journaled path still belongs to the file its entry speaks of. */
  predicate Pinned(s: Local, j: Journal) {
    Valid(s) && forall p | p in j :: p in s.paths && FileOf(s, p, j[p]) == Some(s.paths[p])
  }

  function Remaining(s: Local, done: seq<Path>, j: Journal, scan: Time, attached: set<FileId>): map<Path, FileId> {
    map p | p in s.paths && !(p in done && p in j && Forgets(s, p, j[p], scan, attached)) :: s.paths[p]
  }

  ghost predicate PlayedBack(s: Local, r: Local, done: seq<Path>, j: Journal, scan: Time, attached: set<FileId>)
    requires Pinned(s, j) && forall p | p in done :: p in j
  {
    && r.paths == Remaining(s, done, j, scan, attached)
    && r.keepers == s.keepers && r.groups == s.groups && r.next == s.next
    && (forall p | p in done ::
      Lookup(r, s.paths[p]) == Undo(Lookup(s, s.paths[p]), j[p], scan, s.paths[p] in attached))
    && (forall f | (forall p | p in done :: s.paths[p] != f) :: Lookup(r, f) == Lookup(s, f))
  }

  lemma WithRowLookup(s: Local, f: FileId, row: Option<Copy>, g: FileId)
    ensures Lookup(WithRow(s, f, row), g) == if g == f then row else Lookup(s, g)
  {
  }

  lemma NextUnplayed(s: Local, r: Local, done: seq<Path>, last: Path, j: Journal, scan: Time, attached: set<FileId>)
    requires Pinned(s, j) && (forall p | p in done :: p in j) && last in j && last !in done
    requires PlayedBack(s, r, done, j, scan, attached)
    ensures last in r.paths && FileOf(r, last, j[last]) == Some(s.paths[last])
    ensures forall p | p in done :: s.paths[p] != s.paths[last]
    ensures Lookup(r, s.paths[last]) == Lookup(s, s.paths[last])
    ensures Forgets(r, last, j[last], scan, attached) == Forgets(s, last, j[last], scan, attached)
  {
  }

  /** Undoing one path changes the row of its file and its own entry among the paths. */
  lemma UndoOne(s: Local, r: Local, done: seq<Path>, last: Path, j: Journal, scan: Time, attached: set<FileId>)
    requires Pinned(s, j) && (forall p | p in done :: p in j) && last in j && last !in done
    requires PlayedBack(s, r, done, j, scan, attached)
    ensures var r', f := UndoPath(r, last, j[last], scan, attached), s.paths[last];
      && (forall g :: Lookup(r', g) ==
           if g == f then Undo(Lookup(s, f), j[last], scan, f in attached) else Lookup(r, g))
      && r'.paths == (if Forgets(s, last, j[last], scan, attached) then r.paths - {last} else r.paths)
      && r'.keepers == r.keepers && r'.groups == r.groups && r'.next == r.next
  {
    var f, r' := s.paths[last], UndoPath(r, last, j[last], scan, attached);
    NextUnplayed(s, r, done, last, j, scan, attached);
    var row := Undo(Lookup(s, f), j[last], scan, f in attached);
    assert r'.copies == WithRow(r, f, row).copies;
    forall g ensures Lookup(r', g) == if g == f then row else Lookup(r, g) {
      WithRowLookup(r, f, row, g);
    }
  }

  lemma PlayBackStep(s: Local, r: Local, done: seq<Path>, last: Path, j: Journal, scan: Time, attached: set<FileId>)
    requires Pinned(s, j) && (forall p | p in done :: p in j) && last in j && last !in done
    requires PlayedBack(s, r, done, j, scan, attached)
    ensures PlayedBack(s, UndoPath(r, last, j[last], scan, attached), done + [last], j, scan, attached)
  {
    var r' := UndoPath(r, last, j[last], scan, attached);
    NextUnplayed(s, r, done, last, j, scan, attached);
    UndoOne(s, r, done, last, j, scan, attached);
    forall g | (forall p | p in done + [last] :: s.paths[p] != g) ensures Lookup(r', g) == Lookup(s, g) {
      assert last in done + [last];
      assert forall p | p in done :: p in done + [last];
    }
    assert r'.paths == Remaining(s, done + [last], j, scan, attached);
  }

  lemma {:induction false} PlayBack(s: Local, order: seq<Path>, j: Journal, scan: Time, attached: set<FileId>)
    requires Pinned(s, j) && NoDuplicates(order) && forall p | p in order :: p in j
    ensures PlayedBack(s, RolledBack(s, order, j, scan, attached), order, j, scan, attached)
  {
    if order != [] {
      var front, last := order[..|order| - 1], order[|order| - 1];
      PlayBack(s, front, j, scan, attached);
      PlayBackStep(s, RolledBack(s, front, j, scan, attached), front, last, j, scan, attached);
      assert order == front + [last];
    } else {
      assert Remaining(s, order, j, scan, attached) == s.paths;
    }
  }

  // ----- the scan is undone -----

  /** Equal in every journaled column. */
  predicate SameButHold(a: Option<Copy>, b: Option<Copy>) {
    if a.None? then b.None? else b.Some? && a.value == b.value.(hold := a.value.hold)
  }

  /** The journal covers the row, or no fingerprint was published over it. */
  predicate Undoable(s0: Local, r: Scan, updates: seq<Update>, f: FileId) {
    f in Owners(r.local, r.journal.Keys) || f !in s0.copies || !Hit(updates, f, s0.copies[f])
  }

  lemma InvIsPinned(s0: Local, r: Scan, updates: seq<Update>, scan: Time)
    requires Valid(s0) && InvAfter(s0, r, updates, scan)
    ensures Pinned(r.local, r.journal)
  {
  }

  /**
   Batches and published fingerprints followed by the journal's rollback are the identity: every scan-only
   path is gone, and a row is as before in all journaled columns exactly when the scan journaled it or no
   published fingerprint matched it.
   */
  lemma RollbackIsIdentity(s0: Local, chunks: seq<Chunk>, updates: seq<Update>, scan: Time, order: seq<Path>,
    attached: set<FileId>)
    requires Valid(s0) && Sound(chunks)
    requires forall f | f in attached :: f < s0.next
    requires NoDuplicates(order) && forall p :: p in order <==> p in Scanned(s0, chunks, updates, scan).journal
    ensures var r := Scanned(s0, chunks, updates, scan);
      var u := RolledBack(r.local, order, r.journal, scan, attached);
      && u.paths == s0.paths
      && u.copies.Keys == s0.copies.Keys
      && forall f :: SameButHold(Lookup(u, f), Lookup(s0, f)) <==> Undoable(s0, r, updates, f)
  {
    var r := Scanned(s0, chunks, updates, scan);
    ScannedInv(s0, chunks, updates, scan);
    InvIsPinned(s0, r, updates, scan);
    PlayBack(r.local, order, r.journal, scan, attached);
    var u := RolledBack(r.local, order, r.journal, scan, attached);
    UndonePaths(s0, r, u, updates, scan, order, attached);
    forall f
      ensures SameButHold(Lookup(u, f), Lookup(s0, f)) <==> Undoable(s0, r, updates, f)
      ensures f in u.copies <==> f in s0.copies
    {
      UndoneRow(s0, r, u, updates, scan, order, attached, f);
    }
  }

  lemma UndonePaths(s0: Local, r: Scan, u: Local, updates: seq<Update>, scan: Time, order: seq<Path>,
    attached: set<FileId>)
    requires Valid(s0) && InvAfter(s0, r, updates, scan) && Pinned(r.local, r.journal)
    requires forall f | f in attached :: f < s0.next
    requires forall p :: p in order <==> p in r.journal
    requires PlayedBack(r.local, u, order, r.journal, scan, attached)
    ensures u.paths == s0.paths
  {
  }

  lemma UndoneRow(s0: Local, r: Scan, u: Local, updates: seq<Update>, scan: Time, order: seq<Path>,
    attached: set<FileId>, f: FileId)
    requires Valid(s0) && InvAfter(s0, r, updates, scan) && Pinned(r.local, r.journal)
    requires forall f | f in attached :: f < s0.next
    requires forall p :: p in order <==> p in r.journal
    requires PlayedBack(r.local, u, order, r.journal, scan, attached)
    ensures SameButHold(Lookup(u, f), Lookup(s0, f)) <==> Undoable(s0, r, updates, f)
    ensures f in u.copies <==> f in s0.copies
  {
    if p :| p in r.journal && p in r.local.paths && r.local.paths[p] == f {
      assert StampedPath(r.local, p, scan);
      assert p in order;
      assert Lookup(u, f) == Undo(Lookup(r.local, f), r.journal[p], scan, f in attached);
      assert r.journal[p] == SnapshotOf(s0, p);
    } else {
      assert f !in Owners(r.local, r.journal.Keys);
      assert forall p | p in order :: r.local.paths[p] != f;
      assert Lookup(u, f) == Lookup(r.local, f);
      assert f in u.copies <==> Lookup(u, f).Some?;
    }
  }

  // ----- what is not the scan's any more -----

  predicate Carries(copy: Option<Copy>, scan: Time) {
    copy.Some? && copy.value.lastSeen == Some(scan)
  }

  /**
   Whatever happened between the scan and its rollback, a row that no longer carries the scan's stamp is
   left alone, and so is an identity that a version or a job has been attached to.
   */
  lemma {:induction false} NewerRowsSurvive(s: Local, order: seq<Path>, j: Journal, scan: Time, attached: set<FileId>,
    f: FileId)
    requires forall p | p in order :: p in j
    requires
      || !Carries(Lookup(s, f), scan)
      || (f in attached && forall p | p in order :: j[p].Somebody? ==> j[p].file != f)
    ensures Lookup(RolledBack(s, order, j, scan, attached), f) == Lookup(s, f)
  {
    if order != [] {
      var front, last := order[..|order| - 1], order[|order| - 1];
      NewerRowsSurvive(s, front, j, scan, attached, f);
      var r := RolledBack(s, front, j, scan, attached);
      var g := FileOf(r, last, j[last]);
      assert last in order;
      if g.Some? {
        WithRowLookup(r, g.value, Undo(Lookup(r, g.value), j[last], scan, g.value in attached), f);
      }
    }
  }

  /** Paths whose identity is attached, or whose row was seen since, keep pointing where they point. */
  lemma {:induction false} AttachedPathsSurvive(s: Local, order: seq<Path>, j: Journal, scan: Time,
    attached: set<FileId>, p: Path)
    requires forall q | q in order :: q in j
    requires p in s.paths && (s.paths[p] in attached || !Carries(Lookup(s, s.paths[p]), scan))
    ensures var r := RolledBack(s, order, j, scan, attached);
      p in r.paths && r.paths[p] == s.paths[p] && (s.paths[p] in attached || !Carries(Lookup(r, s.paths[p]), scan))
  {
    if order != [] {
      var front, last := order[..|order| - 1], order[|order| - 1];
      AttachedPathsSurvive(s, front, j, scan, attached, p);
      var r := RolledBack(s, front, j, scan, attached);
      var g := FileOf(r, last, j[last]);
      assert last in order;
      if g.Some? {
        WithRowLookup(r, g.value, Undo(Lookup(r, g.value), j[last], scan, g.value in attached), s.paths[p]);
      }
    }
  }

  /** The hold a scan places on a reappeared file is not journaled, so it outlives the rollback. */
  lemma HoldOutlivesRollback()
    ensures exists s0: Local, e: Entry ::
      && Valid(s0)
      && var r := Scanned(s0, [Chunk([e], {})], [], 9);
      && e.path in r.journal
      && var u := RolledBack(r.local, [e.path], r.journal, 9, {});
      && u.copies.Keys == s0.copies.Keys && u.copies != s0.copies
  {
    var c := Copy(Absent, Regular, Some(1), Some(1), None, None, None, 0, None, None);
    var s0 := Local(map["p" := 0], map[0 := c], map[0 := 7], map[], 1);
    var e := Entry("p", Regular, Some(1), Some(1), 5);
    var chunks := [Chunk([e], {})];
    var r := Scanned(s0, chunks, [], 9);
    assert chunks[..0] == [];
    var before := Committed(s0, [], 9);
    assert Committed(s0, chunks, 9) == Scan(Flushed(s0, chunks[0], 9), Journaled(map[], s0, [e]));
    assert e.path in PathsOf([e]) by { assert [e][0] == e; }
    BatchIsFold(s0, [e], Some(9));
    assert [e][..0] == [];
    assert Fold(s0, [], Some(9)) == s0;
    assert Fold(s0, [e], Some(9)) == Observe(s0, e, Some(9));
    var u := RolledBack(r.local, ["p"], r.journal, 9, {});
    assert ["p"][..0] == [];
    assert RolledBack(r.local, [], r.journal, 9, {}) == r.local;
    assert u == UndoPath(r.local, "p", r.journal["p"], 9, {});
    assert u.copies[0].hold == Some(7);
    assert u.copies.Keys == s0.copies.Keys;
  }

  /** A fingerprint published over a row the scan never journaled outlives the rollback. */
  lemma FingerprintOutlivesRollback()
    ensures exists s0: Local, u: Update ::
      && Valid(s0)
      && var r := Scanned(s0, [], [u], 9);
      && r.journal == map[]
      && var back := RolledBack(r.local, [], r.journal, 9, {});
      && !SameButHold(Lookup(back, u.file), Lookup(s0, u.file))
  {
    var c := Copy(Present, Regular, Some(1), Some(1), None, None, None, 0, None, None);
    var s0 := Local(map["p" := 0], map[0 := c], map[], map[], 1);
    var u := Update(0, Some(1), Some(1), 1, 1, 7, 5);
    assert [u][0] == u && Hit([u], 0, c);
    var r := Scanned(s0, [], [u], 9);
    assert [u][..0] == [] && AllPublished(s0, [], 9) == s0;
    assert r.local == Published(s0, u, 9) && RolledBack(r.local, [], r.journal, 9, {}) == r.local;
    assert r.local.copies[0].digest == Some(7);
  }
}
