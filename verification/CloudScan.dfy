/**
 Merging one listing of the bucket into the catalog. While the loop runs, versions that are listed but
 not reached yet may be marked purged; the closed form below says what each row is in the end.
 */
module CloudScan {
  import opened Common
  import opened VersionRows

  /** A listed object version whose key maps to a logical path; the provider may omit the storage
      class. `at` is the clock when the entry is merged. */
  datatype Entry = Entry(path: Path, id: Identity, raw: Option<string>, at: Time)

  function Tier(e: Entry): string {
    if e.raw.Some? then e.raw.value else "STANDARD"
  }

  /** What one scan knows: its generation, uploads in flight, and what the listing allows. */
  datatype Scan = Scan(
    id: Time,
    uploading: set<FileId>,
    stale: set<Path>,                 // paths whose newest live version is no longer listed
    interpretable: bool)              // no unrecognised key

  ghost function One(c: Catalog, e: Entry, scan: Scan): Catalog {
    var recorded := Record(c, e.id, e.path, Discovered, scan.id, e.at, Tier(e));
    if e.path in scan.stale && scan.interpretable
    then recorded.(rows := Supersede(recorded.rows, e.id, scan.id, scan.uploading))
    else recorded
  }

  ghost function Merge(c: Catalog, entries: seq<Entry>, scan: Scan): Catalog {
    if entries == [] then c
    else One(Merge(c, entries[..|entries| - 1], scan), entries[|entries| - 1], scan)
  }

  ghost function Scanned(c: Catalog, entries: seq<Entry>, scan: Scan): Catalog {
    var merged := Merge(c, entries, scan);
    if scan.interpretable then merged.(rows := MarkMissing(merged.rows, scan.id, scan.uploading)) else merged
  }

  predicate Listed(entries: seq<Entry>, id: Identity) {
    exists j :: 0 <= j < |entries| && entries[j].id == id
  }

  /** The class a listed version was last seen with. */
  predicate SeenWith(entries: seq<Entry>, id: Identity, tier: string) {
    exists j :: 0 <= j < |entries| && entries[j].id == id && Tier(entries[j]) == tier
  }

  /** Some listed version on a stale path belongs to the file. */
  predicate Displaced(rows: map<Identity, Version>, entries: seq<Entry>, scan: Scan, file: FileId) {
    && scan.interpretable
    && exists j ::
         && 0 <= j < |entries| && entries[j].path in scan.stale
         && entries[j].id in rows && rows[entries[j].id].file == file
  }

  /** The newest version of a file that the catalog still counts on. */
  predicate NewestLive(rows: map<Identity, Version>, file: FileId, id: Identity) {
    && id in rows && rows[id].file == file && CountedOn(rows[id])
    && forall other | other in rows && rows[other].file == file && CountedOn(rows[other]) ::
         rows[other].number <= rows[id].number
  }

  predicate CountedOn(v: Version) {
    v.availability == Available || v.availability == Unknown
  }

  predicate ListedUnder(entries: seq<Entry>, path: Path, id: Identity) {
    exists j :: 0 <= j < |entries| && entries[j].path == path && entries[j].id == id
  }

  /** A listed path whose newest live version is not among the path's listed versions. */
  predicate StalePath(c: Catalog, entries: seq<Entry>, path: Path) {
    && (exists j :: 0 <= j < |entries| && entries[j].path == path)
    && path in c.current
    && (exists id | id in c.rows ::
          && NewestLive(c.rows, c.current[path], id)
          && forall j | 0 <= j < |entries| && entries[j].path == path :: entries[j].id != id)
  }

  /** Eligible to be written off: known before the scan, not seen in it, no upload in flight. */
  predicate Doomed(v: Version, scan: Scan) {
    v.checked != Some(scan.id) && v.discovered <= scan.id && v.file !in scan.uploading
  }

  /** What the merge makes of a row that was there before it. */
  predicate MergedRow(v: Version, v': Version, id: Identity, rows': map<Identity, Version>, entries: seq<Entry>,
    scan: Scan) {
    && v'.file == v.file && v'.discovered == v.discovered && v'.number == v.number && v'.integrity == v.integrity
    && (if Listed(entries, id) then
          v'.availability.Available? && v'.checked == Some(scan.id) && SeenWith(entries, id, v'.tier)
        else if CountedOn(v) && Doomed(v, scan) && Displaced(rows', entries, scan, v.file) then
          v' == v.(availability := Purged, checked := Some(scan.id))
        else
          v' == v)
  }

  predicate NewlySeen(v: Version, id: Identity, entries: seq<Entry>, scan: Scan) {
    v.availability.Available? && v.checked == Some(scan.id) && SeenWith(entries, id, v.tier) && Listed(entries, id)
  }

  ghost predicate MergedTo(c: Catalog, c': Catalog, entries: seq<Entry>, scan: Scan) {
    && (forall id | id in c.rows :: id in c'.rows && MergedRow(c.rows[id], c'.rows[id], id, c'.rows, entries, scan))
    && (forall id | id in c'.rows && id !in c.rows ::
          NewlySeen(c'.rows[id], id, entries, scan))
    && (forall j | 0 <= j < |entries| :: entries[j].id in c'.rows)
  }

  lemma ListedSplit(entries: seq<Entry>, id: Identity, tier: string)
    requires entries != []
    ensures SeenWith(entries, id, tier) <==>
      SeenWith(entries[..|entries| - 1], id, tier) ||
        (entries[|entries| - 1].id == id && Tier(entries[|entries| - 1]) == tier)
    ensures Listed(entries, id) <==> Listed(entries[..|entries| - 1], id) || entries[|entries| - 1].id == id
  {
  }

  /** Rows keep their file, so whether a file is displaced only depends on which entries were merged. */
  lemma DisplacedSplit(rows: map<Identity, Version>, rows': map<Identity, Version>, entries: seq<Entry>, scan: Scan,
    file: FileId)
    requires entries != [] && entries[|entries| - 1].id in rows'
    requires forall id | id in rows :: id in rows' && rows'[id].file == rows[id].file
    requires forall j | 0 <= j < |entries| - 1 :: entries[j].id in rows
    ensures Displaced(rows', entries, scan, file) <==>
      || Displaced(rows, entries[..|entries| - 1], scan, file)
      || (scan.interpretable && entries[|entries| - 1].path in scan.stale &&
        rows'[entries[|entries| - 1].id].file == file)
  {
  }

  /** One entry: it becomes available, unseen siblings of a stale path are purged, all else stays. */
  lemma OneRow(c: Catalog, e: Entry, scan: Scan, id: Identity)
    ensures e.id in One(c, e, scan).rows
    ensures One(c, e, scan).rows.Keys == c.rows.Keys + {e.id}
    ensures id == e.id ==>
      One(c, e, scan).rows[id].availability.Available? && One(c, e, scan).rows[id].checked == Some(scan.id)
    ensures id == e.id ==> One(c, e, scan).rows[id].tier == Tier(e)
    ensures id == e.id && id in c.rows ==> One(c, e, scan).rows[id] == Seen(c.rows[id], scan.id, Tier(e))
    ensures id in c.rows && id != e.id ==>
      One(c, e, scan).rows[id] ==
        if e.path in scan.stale && scan.interpretable &&
          Superseded(c.rows[id], One(c, e, scan).rows[e.id].file, scan.id, scan.uploading)
        then c.rows[id].(availability := Purged, checked := Some(scan.id)) else c.rows[id]
  {
  }

  lemma MergedRowStep(v: Version, m: Catalog, m': Catalog, entries: seq<Entry>, scan: Scan, id: Identity)
    requires entries != [] && m' == One(m, entries[|entries| - 1], scan) && id in m.rows
    requires forall j | 0 <= j < |entries| - 1 :: entries[j].id in m.rows
    requires MergedRow(v, m.rows[id], id, m.rows, entries[..|entries| - 1], scan)
    ensures id in m'.rows && MergedRow(v, m'.rows[id], id, m'.rows, entries, scan)
  {
    var last := entries[|entries| - 1];
    MergeKeepsFiles(m, last, scan, m');
    OneRow(m, last, scan, id);
    ListedSplit(entries, id, m'.rows[id].tier);
    DisplacedSplit(m.rows, m'.rows, entries, scan, v.file);
  }

  lemma NewlySeenStep(c: Catalog, m: Catalog, m': Catalog, entries: seq<Entry>, scan: Scan, id: Identity)
    requires entries != [] && m' == One(m, entries[|entries| - 1], scan)
    requires id in m'.rows && id !in c.rows
    requires id in m.rows ==> NewlySeen(m.rows[id], id, entries[..|entries| - 1], scan)
    ensures NewlySeen(m'.rows[id], id, entries, scan)
  {
  }

  lemma MergedStep(c: Catalog, m: Catalog, m': Catalog, entries: seq<Entry>, scan: Scan)
    requires entries != [] && m' == One(m, entries[|entries| - 1], scan)
    requires MergedTo(c, m, entries[..|entries| - 1], scan)
    ensures MergedTo(c, m', entries, scan)
  {
    var front := entries[..|entries| - 1];
    forall j | 0 <= j < |entries| ensures entries[j].id in m'.rows {
      OneRow(m, entries[|entries| - 1], scan, entries[j].id);
      if j < |front| { assert front[j].id in m.rows; }
    }
    forall j | 0 <= j < |entries| - 1 ensures entries[j].id in m.rows {
      assert front[j].id in m.rows;
    }
    forall id | id in c.rows ensures id in m'.rows && MergedRow(c.rows[id], m'.rows[id], id, m'.rows, entries, scan) {
      MergedRowStep(c.rows[id], m, m', entries, scan, id);
    }
    forall id | id in m'.rows && id !in c.rows ensures NewlySeen(m'.rows[id], id, entries, scan) {
      NewlySeenStep(c, m, m', entries, scan, id);
    }
  }

  lemma {:induction false} MergeClosedForm(c: Catalog, entries: seq<Entry>, scan: Scan)
    ensures MergedTo(c, Merge(c, entries, scan), entries, scan)
  {
    if entries != [] {
      var front := entries[..|entries| - 1];
      MergeClosedForm(c, front, scan);
      MergedStep(c, Merge(c, front, scan), Merge(c, entries, scan), entries, scan);
    }
  }

  lemma MergeKeepsFiles(m: Catalog, last: Entry, scan: Scan, m': Catalog)
    requires m' == One(m, last, scan)
    ensures last.id in m'.rows
    ensures forall id | id in m.rows :: id in m'.rows && m'.rows[id].file == m.rows[id].file
  {
    forall id | id in m.rows ensures id in m'.rows && m'.rows[id].file == m.rows[id].file {
      OneRow(m, last, scan, id);
    }
    OneRow(m, last, scan, last.id);
  }

  /**
   The end of a complete scan. Every listed version is available with its listed class; an unlisted one is
   written off exactly when it was known before the scan, not seen in it and has no upload in flight, and it
   is purged rather than missing exactly when it was purged already or a listed version took its file's place.
   */
  lemma ScanEndState(c: Catalog, entries: seq<Entry>, scan: Scan, id: Identity)
    requires scan.interpretable
    ensures var c' := Scanned(c, entries, scan);
      && (Listed(entries, id) ==>
            id in c'.rows && c'.rows[id].availability.Available? && SeenWith(entries, id, c'.rows[id].tier))
      && (id in c'.rows && !Listed(entries, id) ==> id in c.rows)
      && (id in c.rows && !Listed(entries, id) ==>
        id in c'.rows && WrittenOff(c.rows[id], c'.rows[id], c'.rows, entries, scan))
  {
    var m, c' := Merge(c, entries, scan), Scanned(c, entries, scan);
    MergeClosedForm(c, entries, scan);
    if Listed(entries, id) {
      var j :| 0 <= j < |entries| && entries[j].id == id;
      assert entries[j].id in m.rows;
    } else if id in c.rows {
      assert MergedRow(c.rows[id], m.rows[id], id, m.rows, entries, scan);
      SameDisplacement(m.rows, c'.rows, entries, scan, c.rows[id].file);
    }
  }

  predicate WrittenOff(v: Version, v': Version, rows': map<Identity, Version>, entries: seq<Entry>, scan: Scan) {
    if Doomed(v, scan) then
      && v'.availability == (if v.availability.Purged? ||
        (CountedOn(v) && Displaced(rows', entries, scan, v.file)) then Purged else Missing)
      && v' == v.(availability := v'.availability, checked := v'.checked)
    else
      v' == v
  }

  lemma SameDisplacement(rows: map<Identity, Version>, rows': map<Identity, Version>, entries: seq<Entry>, scan: Scan,
    file: FileId)
    requires rows.Keys == rows'.Keys && forall id | id in rows :: rows'[id].file == rows[id].file
    ensures Displaced(rows, entries, scan, file) == Displaced(rows', entries, scan, file)
  {
  }

  /** A key that cannot be interpreted makes the listing evidence of presence only. */
  lemma UninterpretableWritesNothingOff(c: Catalog, entries: seq<Entry>, scan: Scan, id: Identity)
    requires !scan.interpretable
    ensures var c' := Scanned(c, entries, scan);
      && (Listed(entries, id) ==> id in c'.rows && c'.rows[id].availability.Available?)
      && (id in c'.rows && !Listed(entries, id) ==> id in c.rows && c'.rows[id] == c.rows[id])
      && (id in c.rows ==> id in c'.rows)
  {
    MergeClosedForm(c, entries, scan);
    var m := Merge(c, entries, scan);
    if Listed(entries, id) {
      var j :| 0 <= j < |entries| && entries[j].id == id;
      assert entries[j].id in m.rows;
    } else if id in c.rows {
      assert MergedRow(c.rows[id], m.rows[id], id, m.rows, entries, scan);
    }
  }

  /** A scan that a newer generation overtakes leaves a prefix behind, which writes nothing off as missing. */
  lemma OvertakenScanLosesNothing(c: Catalog, entries: seq<Entry>, scan: Scan, id: Identity)
    requires id in c.rows
    ensures var m := Merge(c, entries, scan);
      && id in m.rows
      && (m.rows[id].availability.Missing? ==> c.rows[id].availability.Missing?)
      && (m.rows[id].availability.Purged? && !c.rows[id].availability.Purged? ==>
            Displaced(m.rows, entries, scan, c.rows[id].file) && !Listed(entries, id))
  {
    MergeClosedForm(c, entries, scan);
    assert MergedRow(c.rows[id], Merge(c, entries, scan).rows[id], id, Merge(c, entries, scan).rows, entries, scan);
  }

  /**
   With the stale paths decided before the merge, a version is only ever purged behind a path whose newest
   live version has disappeared from the listing.
   */
  lemma PurgedBehindAStalePath(c: Catalog, entries: seq<Entry>, scan: Scan, id: Identity)
    requires scan.interpretable && id in c.rows && !c.rows[id].availability.Purged?
    requires forall p | p in scan.stale :: StalePath(c, entries, p)
    requires id in Scanned(c, entries, scan).rows && Scanned(c, entries, scan).rows[id].availability.Purged?
    ensures !Listed(entries, id)
    ensures exists p, keeper ::
      && p in c.current && NewestLive(c.rows, c.current[p], keeper)
      && (forall j | 0 <= j < |entries| && entries[j].path == p :: entries[j].id != keeper)
      && (exists j :: 0 <= j < |entries| && entries[j].path == p && entries[j].id in Scanned(c, entries, scan).rows
                      && Scanned(c, entries, scan).rows[entries[j].id].file == c.rows[id].file)
  {
    ScanEndState(c, entries, scan, id);
    var rows' := Scanned(c, entries, scan).rows;
    assert Displaced(rows', entries, scan, c.rows[id].file);
    var j :| 0 <= j < |entries| && entries[j].path in scan.stale && entries[j].id in rows' &&
      rows'[entries[j].id].file == c.rows[id].file;
    var p := entries[j].path;
    assert StalePath(c, entries, p);
    var keeper :| keeper in c.rows && NewestLive(c.rows, c.current[p], keeper)
      && forall k | 0 <= k < |entries| && entries[k].path == p :: entries[k].id != keeper;
  }
}
