/** Auditing the catalog against a listing, and why an audit finds nothing to do after a scan of the same listing. */
module CatalogAudit {
  import opened Common
  import opened VersionRows
  import opened CloudScan

  /** What the provider lists, by exact identity; the storage class may be absent. */
  type Listing = map<Identity, Option<string>>

  function OrStandard(raw: Option<string>): string {
    if raw.None? || raw.value == "" then "STANDARD" else raw.value
  }

  predicate Drifted(v: Version, raw: Option<string>) {
    OrStandard(raw) != OrStandard(Some(v.tier))
  }

  predicate Excused(v: Version, started: Time, uploading: set<FileId>) {
    v.file in uploading || v.discovered > started
  }

  function Audited(id: Identity, v: Version, listing: Listing, started: Time, uploading: set<FileId>): Version {
    if v.availability.Purged? then v
    else if id !in listing then
      if Excused(v, started, uploading) then v else v.(availability := Missing)
    else if Drifted(v, listing[id]) then
      v.(tier := OrStandard(listing[id]), source := FromListing, availability := Available)
    else
      v.(availability := Available)
  }

  function AuditedRows(rows: map<Identity, Version>, listing: Listing, started: Time,
    uploading: set<FileId>): map<Identity, Version> {
    map id | id in rows :: Audited(id, rows[id], listing, started, uploading)
  }

  predicate IsLost(id: Identity, v: Version, listing: Listing, started: Time, uploading: set<FileId>) {
    !v.availability.Purged? && id !in listing && !Excused(v, started, uploading)
  }

  predicate IsDrift(id: Identity, v: Version, listing: Listing) {
    !v.availability.Purged? && id in listing && Drifted(v, listing[id])
  }

  predicate IsBack(id: Identity, v: Version, listing: Listing) {
    !v.availability.Purged? && id in listing && (Drifted(v, listing[id]) || !v.availability.Available?)
  }

  /** The rows each counter of the report counts. */
  function MissingInCloud(rows: map<Identity, Version>, listing: Listing, started: Time,
    uploading: set<FileId>): set<Identity> {
    set id | id in rows && IsLost(id, rows[id], listing, started, uploading)
  }

  function Drifts(rows: map<Identity, Version>, listing: Listing): set<Identity> {
    set id | id in rows && IsDrift(id, rows[id], listing)
  }

  function Restored(rows: map<Identity, Version>, listing: Listing): set<Identity> {
    set id | id in rows && IsBack(id, rows[id], listing)
  }

  function MissingInCatalog(rows: map<Identity, Version>, listing: Listing): set<Identity> {
    set id | id in listing && (id !in rows || rows[id].availability.Purged?)
  }

  function Audible(rows: map<Identity, Version>): set<Identity> {
    set id | id in rows && !rows[id].availability.Purged?
  }

  /** The audit once the rows in `seen` have been visited. */
  function Partly(rows: map<Identity, Version>, seen: set<Identity>, listing: Listing, started: Time,
    uploading: set<FileId>): map<Identity, Version> {
    map id | id in rows :: if id in seen then Audited(id, rows[id], listing, started, uploading) else rows[id]
  }

  lemma PartlyStep(rows: map<Identity, Version>, seen: set<Identity>, id: Identity, listing: Listing, started: Time,
    uploading: set<FileId>)
    requires id in rows && id !in seen
    ensures id in Partly(rows, seen, listing, started, uploading) &&
      Partly(rows, seen, listing, started, uploading)[id] == rows[id]
    ensures Partly(rows, seen, listing, started, uploading)[id := Audited(id, rows[id], listing, started, uploading)]
         == Partly(rows, seen + {id}, listing, started, uploading)
  {
  }

  lemma PartlyAll(rows: map<Identity, Version>, listing: Listing, started: Time, uploading: set<FileId>)
    ensures Partly(rows, {}, listing, started, uploading) == rows
    ensures Partly(rows, Audible(rows), listing, started, uploading) == AuditedRows(rows, listing, started, uploading)
    ensures Within(Tallied(rows, listing, started, uploading), {}) == Tally({}, {}, {})
    ensures Within(Tallied(rows, listing, started, uploading), Audible(rows)) ==
      Tallied(rows, listing, started, uploading)
    ensures (set id | id in listing && id !in Audible(rows)) == MissingInCatalog(rows, listing)
  {
  }

  /** The identities behind the counters. */
  datatype Tally = Tally(missing: set<Identity>, drift: set<Identity>, restored: set<Identity>)

  function Tallied(rows: map<Identity, Version>, listing: Listing, started: Time, uploading: set<FileId>): Tally {
    Tally(MissingInCloud(rows, listing, started, uploading), Drifts(rows, listing), Restored(rows, listing))
  }

  function Within(t: Tally, seen: set<Identity>): Tally {
    Tally(seen * t.missing, seen * t.drift, seen * t.restored)
  }

  function Counted(t: Tally, id: Identity, lost: bool, drifted: bool, back: bool): Tally {
    Tally(if lost then t.missing + {id} else t.missing, if drifted then t.drift + {id} else t.drift,
          if back then t.restored + {id} else t.restored)
  }

  lemma Grow(rows: map<Identity, Version>, seen: set<Identity>, id: Identity, listing: Listing, started: Time,
    uploading: set<FileId>)
    requires id in rows
    ensures Within(Tallied(rows, listing, started, uploading), seen + {id}) ==
      Counted(Within(Tallied(rows, listing, started, uploading), seen), id,
              IsLost(id, rows[id], listing, started, uploading), IsDrift(id, rows[id], listing),
                IsBack(id, rows[id], listing))
  {
  }

  // ----- the audit in columns -----

  function ListedClass(raw: Option<string>): string {
    match raw case None => "STANDARD" case Some(name) => if name == "" then "STANDARD" else name
  }

  /** Not purged, not listed, old enough, and no upload in flight. */
  predicate Gone(id: Identity, v: Version, listing: Listing, started: Time, uploading: set<FileId>) {
    v.availability != Purged && id !in listing && v.discovered <= started && v.file !in uploading
  }

  predicate OtherClass(id: Identity, v: Version, listing: Listing) {
    && v.availability != Purged && id in listing
    && ListedClass(listing[id]) != if v.tier == "" then "STANDARD" else v.tier
  }

  predicate Returned(id: Identity, v: Version, listing: Listing) {
    v.availability != Purged && v.availability != Available && id in listing
  }

  /** What the audit makes of one row. */
  predicate AuditedByColumns(id: Identity, v: Version, v': Version, listing: Listing, started: Time,
    uploading: set<FileId>)
  {
    v' ==
      if Gone(id, v, listing, started, uploading) then v.(availability := Missing)
      else if OtherClass(id, v, listing) then
        v.(availability := Available, tier := ListedClass(listing[id]), source := FromListing)
      else if Returned(id, v, listing) then v.(availability := Available)
      else v
  }

  lemma CountersInColumns(rows: map<Identity, Version>, listing: Listing, started: Time, uploading: set<FileId>)
    ensures MissingInCloud(rows, listing, started, uploading) ==
      set id | id in rows && Gone(id, rows[id], listing, started, uploading)
    ensures MissingInCatalog(rows, listing) ==
      set id | id in listing && (id in rows ==> rows[id].availability == Purged)
    ensures Drifts(rows, listing) == set id | id in rows && OtherClass(id, rows[id], listing)
    ensures Restored(rows, listing) ==
      set id | id in rows && (OtherClass(id, rows[id], listing) || Returned(id, rows[id], listing))
    ensures forall id | id in rows ::
      AuditedByColumns(id, rows[id], AuditedRows(rows, listing, started, uploading)[id], listing, started, uploading)
    ensures MissingInCloud(rows, listing, started, uploading) == {} <==>
      forall id | id in rows :: !Gone(id, rows[id], listing, started, uploading)
  {
    var gone := MissingInCloud(rows, listing, started, uploading);
    assert gone == {} <==> forall id | id in rows :: id !in gone;
  }

  ghost predicate Enumerates(order: seq<Identity>, ids: set<Identity>) {
    (forall id :: id in ids <==> id in order) && NoDuplicates(order)
  }

  datatype Report = Report(missingInCloud: nat, missingInCatalog: nat, drift: nat, restored: nat, healthy: bool)

  class AuditedCatalog {
    var rows: map<Identity, Version>

    constructor (rows: map<Identity, Version>)
      ensures this.rows == rows
    {
      this.rows := rows;
    }

    /** The audit visits every row that is not purged, in any order. */
    method Audit(order: seq<Identity>, listing: Listing, started: Time, uploading: set<FileId>) returns (report: Report)
      requires Enumerates(order, Audible(rows))
      modifies this
      ensures rows == AuditedRows(old(rows), listing, started, uploading)
      ensures rows.Keys == old(rows).Keys && forall id | id in rows ::
        AuditedByColumns(id, old(rows)[id], rows[id], listing, started, uploading)
      ensures report.missingInCloud ==
        |set id | id in old(rows) && Gone(id, old(rows)[id], listing, started, uploading)|
      ensures report.missingInCatalog ==
        |set id | id in listing && (id in old(rows) ==> old(rows)[id].availability == Purged)|
      ensures report.drift == |set id | id in old(rows) && OtherClass(id, old(rows)[id], listing)|
      ensures report.restored == |set id | id in old(rows) &&
        (OtherClass(id, old(rows)[id], listing) || Returned(id, old(rows)[id], listing))|
      ensures report.healthy <==> forall id | id in old(rows) :: !Gone(id, old(rows)[id], listing, started, uploading)
    {
      CountersInColumns(rows, listing, started, uploading);
      report := AuditRows(order, listing, started, uploading);
    }

    method AuditRows(order: seq<Identity>, listing: Listing, started: Time, uploading: set<FileId>)
      returns (report: Report)
      requires Enumerates(order, Audible(rows))
      modifies this
      ensures rows == AuditedRows(old(rows), listing, started, uploading)
      ensures report.missingInCloud == |MissingInCloud(old(rows), listing, started, uploading)|
      ensures report.missingInCatalog == |MissingInCatalog(old(rows), listing)|
      ensures report.drift == |Drifts(old(rows), listing)| && report.restored == |Restored(old(rows), listing)|
      ensures report.healthy <==> MissingInCloud(old(rows), listing, started, uploading) == {}
    {
      PartlyAll(rows, listing, started, uploading);
      var tally := VisitAll(order, listing, started, uploading);
      var unknown := set id | id in listing && id !in order;
      assert unknown == MissingInCatalog(old(rows), listing);
      report := Report(|tally.missing|, |unknown|, |tally.drift|, |tally.restored|, |tally.missing| == 0);
    }

    method VisitAll(order: seq<Identity>, listing: Listing, started: Time, uploading: set<FileId>)
      returns (tally: Tally)
      requires Enumerates(order, Audible(rows))
      modifies this
      ensures Progress(old(rows), Audible(old(rows)), tally, listing, started, uploading)
    {
      ghost var before := rows;
      ghost var seen: set<Identity> := {};
      PartlyAll(rows, listing, started, uploading);
      tally := Tally({}, {}, {});
      for k := 0 to |order|
        invariant forall id :: id in seen <==> id in order[..k]
        invariant Progress(before, seen, tally, listing, started, uploading)
      {
        assert order[k] in order;
        tally := Advance(order[k], before, seen, tally, listing, started, uploading);
        seen := seen + {order[k]};
      }
      assert seen == Audible(before);
    }

    ghost predicate Progress(before: map<Identity, Version>, seen: set<Identity>, tally: Tally, listing: Listing,
      started: Time, uploading: set<FileId>)
      reads this
    {
      && rows == Partly(before, seen, listing, started, uploading)
      && tally == Within(Tallied(before, listing, started, uploading), seen)
    }

    method Advance(id: Identity, ghost before: map<Identity, Version>, ghost seen: set<Identity>, tally: Tally,
      listing: Listing, started: Time, uploading: set<FileId>)
      returns (tally': Tally)
      requires id in Audible(before) && id !in seen
      requires Progress(before, seen, tally, listing, started, uploading)
      modifies this
      ensures Progress(before, seen + {id}, tally', listing, started, uploading)
    {
      PartlyStep(before, seen, id, listing, started, uploading);
      Grow(before, seen, id, listing, started, uploading);
      var lost, drifted, back := Visit(id, listing, started, uploading);
      tally' := Counted(tally, id, lost, drifted, back);
    }

    method Visit(id: Identity, listing: Listing, started: Time, uploading: set<FileId>)
      returns (lost: bool, drifted: bool, back: bool)
      requires id in rows && !rows[id].availability.Purged?
      modifies this
      ensures rows == old(rows)[id := Audited(id, old(rows)[id], listing, started, uploading)]
      ensures lost <==> IsLost(id, old(rows)[id], listing, started, uploading)
      ensures drifted <==> IsDrift(id, old(rows)[id], listing)
      ensures back <==> IsBack(id, old(rows)[id], listing)
    {
      lost, drifted, back := false, false, false;
      var v := rows[id];
      if id !in listing {
        if !Excused(v, started, uploading) {
          lost := true;
          if !v.availability.Missing? {
            rows := rows[id := v.(availability := Missing)];
          }
        }
      } else if Drifted(v, listing[id]) {
        drifted, back := true, true;
        rows := rows[id := v.(tier := OrStandard(listing[id]), source := FromListing, availability := Available)];
      } else if !v.availability.Available? {
        back := true;
        rows := rows[id := v.(availability := Available)];
      }
      assert rows == old(rows)[id := rows[id]];
    }
  }

  // ----- an audit after a scan -----

  /** The listing an audit reads holds exactly the entries the scan merged. */
  predicate SameListing(entries: seq<Entry>, listing: Listing) {
    && (forall j | 0 <= j < |entries| :: entries[j].id in listing && listing[entries[j].id] == entries[j].raw)
    && (forall id | id in listing :: Listed(entries, id))
  }

  /** A live, unlisted row that the scan had to spare and the audit does not. */
  predicate Latecomer(v: Version, scan: Scan, started: Time) {
    && CountedOn(v) && v.file !in scan.uploading
    && (v.checked == Some(scan.id) || scan.id < v.discovered) && v.discovered <= started
  }

  predicate Quiet(c: Catalog, entries: seq<Entry>, scan: Scan, started: Time) {
    forall id | id in c.rows && !Listed(entries, id) :: !Latecomer(c.rows[id], scan, started)
  }

  lemma AuditedRowAfterScan(c: Catalog, entries: seq<Entry>, scan: Scan, listing: Listing, started: Time, id: Identity)
    requires scan.interpretable && SameListing(entries, listing)
    requires id in Scanned(c, entries, scan).rows
    ensures id in listing <==> Listed(entries, id)
    ensures var v := Scanned(c, entries, scan).rows[id];
      && !(id in listing && (Drifted(v, listing[id]) || v.availability.Purged?))
      && (Audited(id, v, listing, started, scan.uploading).availability != v.availability <==>
            id in c.rows && !Listed(entries, id) && Latecomer(c.rows[id], scan, started))
      && (Audited(id, v, listing, started, scan.uploading) != v <==>
            id in c.rows && !Listed(entries, id) && Latecomer(c.rows[id], scan, started))
  {
    ScanEndState(c, entries, scan, id);
    if Listed(entries, id) {
      var v := Scanned(c, entries, scan).rows[id];
      var j :| 0 <= j < |entries| && entries[j].id == id && Tier(entries[j]) == v.tier;
      assert listing[id] == entries[j].raw;
    }
  }

  /**
   After a complete, interpretable scan, an audit of the same listing reports no class drift and no version
   missing from the catalog, and it changes the catalog exactly when a row was spared by the scan for being
   too recent but is old enough for the audit.
   */
  lemma AuditAfterScan(c: Catalog, entries: seq<Entry>, scan: Scan, listing: Listing, started: Time)
    requires scan.interpretable && SameListing(entries, listing)
    ensures Drifts(Scanned(c, entries, scan).rows, listing) == {}
    ensures MissingInCatalog(Scanned(c, entries, scan).rows, listing) == {}
    ensures Restored(Scanned(c, entries, scan).rows, listing) == {}
    ensures var rows := Scanned(c, entries, scan).rows;
      AuditedRows(rows, listing, started, scan.uploading) == rows <==> Quiet(c, entries, scan, started)
  {
    var rows := Scanned(c, entries, scan).rows;
    var audited := AuditedRows(rows, listing, started, scan.uploading);
    forall id ensures id in rows ==>
      (audited[id] == rows[id] <==> !(id in c.rows && !Listed(entries, id) && Latecomer(c.rows[id], scan, started)))
      ensures id in rows && id in listing ==>
        !Drifted(rows[id], listing[id]) && !rows[id].availability.Purged? && rows[id].availability.Available?
      ensures Listed(entries, id) || id in c.rows ==> id in rows
    {
      ScanEndState(c, entries, scan, id);
      if id in rows {
        AuditedRowAfterScan(c, entries, scan, listing, started, id);
      }
    }
    if Quiet(c, entries, scan, started) {
      assert forall id | id in rows :: audited[id] == rows[id];
    }
    if !Quiet(c, entries, scan, started) {
      var id :| id in c.rows && !Listed(entries, id) && Latecomer(c.rows[id], scan, started);
      assert audited[id] != rows[id];
    }
  }

  /** The scan of an empty listing leaves the row as it was, and the audit of the same listing marks it missing. */
  ghost predicate SparedThenMissing(c: Catalog, scan: Scan, started: Time, id: Identity) {
    var rows := Scanned(c, [], scan).rows;
    && id in c.rows && id in rows && rows[id] == c.rows[id]
    && AuditedRows(rows, map[], started, scan.uploading)[id] == c.rows[id].(availability := Missing)
  }

  /** A version discovered after the scan began and before the audit: the scan spares it, the audit does not. */
  lemma LatecomerIsMarkedMissing()
    ensures exists c: Catalog, scan: Scan, started: Time, id: Identity ::
      && scan.interpretable && SameListing([], map[]) && id in c.rows && c.rows[id].availability.Available?
      && SparedThenMissing(c, scan, started, id)
  {
    var id := Target("k", "v");
    var v := Version(1, 1, Upload, Verified, Available, None, 5, "STANDARD", FromUpload, None);
    var c := Catalog(map[id := v], map[], map[], 2);
    var scan := Scan(3, {}, {}, true);
    assert !Listed([], id) && Latecomer(v, scan, 6);
    ScanEndState(c, [], scan, id);
    assert SparedThenMissing(c, scan, 6, id);
  }
}
