/** The archive_versions table as the scan, the publication and the reconnection change it. */
module VersionTable {
  import opened Common
  import opened VersionRows
  import opened CloudScan
  import opened VersionNumbers

  /** Distinct numbers leave one newest live version at most. */
  lemma OnlyKeeper(rows: map<Identity, Version>, file: FileId, keeper: Option<Identity>)
    requires Unique(rows)
    requires keeper.Some? ==> NewestLive(rows, file, keeper.value)
    requires keeper.None? ==> forall id | id in rows && rows[id].file == file :: !CountedOn(rows[id])
    ensures forall id | id in rows && NewestLive(rows, file, id) :: keeper == Some(id)
  {
  }

  /**
   The row of a version the catalog did not know: unverified, under the owner of its path, above every other version of
   that file, or below all of them if it was discovered and the file keeps a verified available version.
   */
  ghost predicate IsNewRow(c: Catalog, v: Version, path: Path, origin: Origin, scan: Time, now: Time, tier: string) {
    && v.file == (if path in c.current then c.current[path] else if path in c.history then c.history[path] else c.next)
    && v.origin == origin && v.integrity == Unverified && v.availability == Available && v.checked == Some(scan)
    && v.discovered == now && v.tier == tier && v.snapshot == None
    && v.source == (if origin == Upload then FromUpload else FromListing)
    && forall k | k in c.rows && c.rows[k].file == v.file ::
         if origin == Discovered && Kept(c.rows, v.file) then v.number < c.rows[k].number
         else c.rows[k].number < v.number
  }

  lemma NewRowInColumns(c: Catalog, id: Identity, path: Path, origin: Origin, scan: Time, now: Time, tier: string)
    requires id !in c.rows
    ensures IsNewRow(c, Record(c, id, path, origin, scan, now, tier).rows[id], path, origin, scan, now, tier)
  {
    var file := OwnerOf(c, path);
    KeptInColumns(c.rows, file);
    forall k | k in c.rows && c.rows[k].file == file
      ensures if origin == Discovered && Kept(c.rows, file) then NewNumber(c.rows, file, origin) < c.rows[k].number
        else c.rows[k].number < NewNumber(c.rows, file, origin)
    {
      NewNumberIsNew(c.rows, file, origin, k);
    }
  }

  class Versions {
    var ids: seq<Identity>                 // the rows in insertion order
    var rows: map<Identity, Version>
    var current: map<Path, FileId>
    var history: map<Path, FileId>
    var next: FileId

    ghost predicate Valid()
      reads this
    {
      forall id :: id in ids <==> id in rows
    }

    ghost function Here(): Catalog
      reads this
    {
      Catalog(rows, current, history, next)
    }

    constructor ()
      ensures Valid() && Here() == Catalog(map[], map[], map[], 0)
    {
      ids, rows, current, history, next := [], map[], map[], map[], 0;
    }

    /** MAX and MIN of a file's version numbers, and whether a verified available version exists. */
    method Bounds(file: FileId) returns (newest: int, oldest: int, keeper: bool)
      requires Valid()
      ensures newest == Newest(rows, file) && oldest == Oldest(rows, file) && keeper == HasKeeper(rows, file)
    {
      var any := false;
      newest, oldest, keeper := 0, 0, false;
      for k := 0 to |ids|
        invariant any <==> exists j :: 0 <= j < k && rows[ids[j]].file == file
        invariant keeper <==> exists j :: 0 <= j < k && rows[ids[j]].file == file && Keeper(rows[ids[j]])
        invariant any ==> newest in Numbers(rows, file) && oldest in Numbers(rows, file)
        invariant !any ==> newest == 0 && oldest == 0
        invariant forall j | 0 <= j < k && rows[ids[j]].file == file :: oldest <= rows[ids[j]].number <= newest
      {
        assert ids[k] in ids;
        var v := rows[ids[k]];
        if v.file == file {
          assert v.number in Numbers(rows, file);
          newest := if !any || v.number > newest then v.number else newest;
          oldest := if !any || v.number < oldest then v.number else oldest;
          any := true;
          keeper := keeper || Keeper(v);
        }
      }
      forall n | n in Numbers(rows, file) ensures any && oldest <= n <= newest {
        var id :| id in rows && rows[id].file == file && rows[id].number == n;
        assert id in ids;
        var j :| 0 <= j < |ids| && ids[j] == id;
      }
      if id :| id in rows && rows[id].file == file && Keeper(rows[id]) {
        assert id in ids;
        var j :| 0 <= j < |ids| && ids[j] == id;
      }
      if keeper {
        var j :| 0 <= j < |ids| && rows[ids[j]].file == file && Keeper(rows[ids[j]]);
        assert ids[j] in ids;
      }
    }

    /** Records one listed or uploaded version. */
    method RecordVersion(id: Identity, path: Path, origin: Origin, scan: Time, now: Time, tier: string)
      requires Valid()
      modifies this
      ensures Valid() && Here() == Record(old(Here()), id, path, origin, scan, now, tier)
      ensures id in rows && forall k | k in old(rows) && k != id :: k in rows && rows[k] == old(rows)[k]
      ensures id in old(rows) ==> var v := old(rows)[id];
        rows[id] == v.(availability := Available, checked := Some(scan), tier := tier,
          source := if tier != "" && tier != v.tier && v.source != Manual then FromListing else v.source)
      ensures id !in old(rows) ==> IsNewRow(old(Here()), rows[id], path, origin, scan, now, tier)
    {
      if id !in rows { NewRowInColumns(Here(), id, path, origin, scan, now, tier); }
      if id in rows {
        rows := rows[id := Seen(rows[id], scan, tier)];
        return;
      }
      var file := next;
      if path in current {
        file := current[path];
      } else if path in history {
        file := history[path];
      }
      var newest, oldest, keeper := Bounds(file);
      var number := newest + 1;
      if origin.Discovered? && keeper {
        number := (if oldest < 0 then oldest else 0) - 1;
      }
      if path !in current && path !in history {
        current, next := current[path := next], next + 1;
      }
      ids, rows := ids + [id], rows[id := NewRow(file, number, origin, scan, now, tier)];
    }

    /** Decides which listed paths lost their newest live version, before the merge changes any number. */
    method StaleKeepers(entries: seq<Entry>) returns (stale: set<Path>)
      requires Valid() && Unique(rows)
      ensures forall p :: p in stale <==> StalePath(Here(), entries, p)
    {
      stale := {};
      for k := 0 to |entries|
        invariant forall p :: p in stale <==>
          StalePath(Here(), entries, p) && exists j :: 0 <= j < k && entries[j].path == p
      {
        var path := entries[k].path;
        if path in current {
          var keeper := FindKeeper(current[path]);
          if keeper.Some? && !ListedUnder(entries, path, keeper.value) {
            stale := stale + {path};
          }
          OnlyKeeper(rows, current[path], keeper);
        }
      }
    }

    method FindKeeper(file: FileId) returns (keeper: Option<Identity>)
      requires Valid()
      ensures keeper.Some? ==> NewestLive(rows, file, keeper.value)
      ensures keeper.None? ==> forall id | id in rows && rows[id].file == file :: !CountedOn(rows[id])
    {
      keeper := None;
      for k := 0 to |ids|
        invariant keeper.Some? ==> keeper.value in rows && rows[keeper.value].file == file && Live(rows[keeper.value])
        invariant forall j | 0 <= j < k && rows[ids[j]].file == file && Live(rows[ids[j]]) ::
          keeper.Some? && rows[ids[j]].number <= rows[keeper.value].number
      {
        assert ids[k] in ids;
        var v := rows[ids[k]];
        if v.file == file && Live(v) && (keeper.None? || v.number > rows[keeper.value].number) {
          keeper := Some(ids[k]);
        }
      }
      forall id | id in rows && rows[id].file == file && Live(rows[id])
        ensures keeper.Some? && rows[id].number <= rows[keeper.value].number {
        assert id in ids;
        var j :| 0 <= j < |ids| && ids[j] == id;
      }
    }

    /**
     Merges a listing entry by entry. `reached` says how far the scan gets before a newer generation takes
     over; only a scan that reaches the end of an interpretable listing may declare versions missing.
     */
    method ScanCloud(entries: seq<Entry>, scan: Scan, reached: nat) returns (count: nat)
      requires Valid()
      modifies this
      ensures Valid()
      ensures count == if reached < |entries| then reached else |entries|
      ensures reached < |entries| ==> Here() == Merge(old(Here()), entries[..reached], scan)
      ensures reached >= |entries| ==> Here() == Scanned(old(Here()), entries, scan)
    {
      count := 0;
      while count < |entries|
        invariant count <= |entries| && count <= reached
        invariant Valid()
        invariant Here() == Merge(old(Here()), entries[..count], scan)
      {
        if count == reached {
          return;
        }
        MergeEntry(entries[count], scan);
        assert entries[..count + 1][..count] == entries[..count];
        count := count + 1;
      }
      assert entries[..count] == entries;
      if scan.interpretable {
        rows := MarkMissing(rows, scan.id, scan.uploading);
      }
    }

    method MergeEntry(e: Entry, scan: Scan)
      requires Valid()
      modifies this
      ensures Valid() && Here() == One(old(Here()), e, scan)
    {
      RecordVersion(e.id, e.path, Discovered, scan.id, e.at, Tier(e));
      if e.path in scan.stale && scan.interpretable {
        rows := Supersede(rows, e.id, scan.id, scan.uploading);
      }
    }

    /**
     Publishes an upload receipt in one transaction: records the version, pins its snapshot, links the intent unless it
     is linked elsewhere, and promotes a version that a scan saw first if the intent's guard holds.
     */
    method Publish(id: Identity, path: Path, intent: Intent, stamp: Time, tier: string)
      returns (ok: bool, linked: Intent)
      requires Valid()
      modifies this
      ensures Valid()
      ensures ok <==>
        && path in old(current) && old(current)[path] == intent.file
        && (id in old(rows) ==>
              && old(rows)[id].file == intent.file
              && (|| old(rows)[id].snapshot == Some(intent.snapshot)
                  || (old(rows)[id].snapshot == None && old(rows)[id].integrity != Verified)))
      ensures ok ==>
        && id in rows && rows[id].file == intent.file && rows[id].availability == Available
        && rows[id].snapshot == Some(intent.snapshot)
      ensures forall k | k in old(rows) && (k != id || !ok) :: k in rows && rows[k] == old(rows)[k]
      ensures linked == if ok then Linked(intent, id) else intent
      ensures Here() == if ok then Published(old(Here()), id, path, intent, stamp, tier) else old(Here())
    {
      linked := intent;
      ok := MayPublish(id, path, intent);
      if !ok {
        return;
      }
      RecordVersion(id, path, Upload, stamp, stamp, tier);
      rows := rows[id := rows[id].(snapshot := Some(intent.snapshot))];
      if linked.linked.None? {
        linked := linked.(linked := Some(id));
      }
      PromoteVersion(id, linked);
    }

    /** The path still belongs to the intent's file, and so does the version, with no other snapshot. */
    method MayPublish(id: Identity, path: Path, intent: Intent) returns (ok: bool)
      ensures ok == Publishable(Here(), id, path, intent)
    {
      ok := path in current && current[path] == intent.file;
      if ok && id in rows {
        var v := rows[id];
        ok := v.file == intent.file
          && (if v.snapshot.Some? then v.snapshot.value == intent.snapshot else v.integrity != Verified);
      }
    }

    method PromoteVersion(id: Identity, intent: Intent)
      requires Valid() && id in rows && rows[id].snapshot == Some(intent.snapshot)
      modifies this`rows
      ensures Valid() && rows == Promote(old(rows), id, intent)
      ensures id in rows && rows == old(rows)[id := rows[id]]
      ensures rows[id] == old(rows)[id].(number := rows[id].number, origin := rows[id].origin)
    {
      var v := rows[id];
      if v.origin.Discovered? && intent.linked == Some(id) && intent.file == v.file && intent.sendStarted {
        var newest, _, _ := Bounds(v.file);
        rows := rows[id := v.(number := newest + 1, origin := Upload)];
      }
      assert old(rows)[id := old(rows)[id]] == old(rows);
    }
  }
}
