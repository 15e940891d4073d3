/** The tables a local scan writes, with the statements of the scan, its journal and its compensation. */
module LocalTables {
  import opened Common
  import opened LocalCopies
  import opened Observations
  import opened ScanJournal

  /** After the UPDATE of a batch: only rows that exist, joined with the batch's observations. */
  function Updated(t: Local, entries: seq<Entry>, seen: Option<Time>): map<FileId, Copy>
    requires Known(t, entries)
  {
    map f | f in t.copies :: WrittenRow(t, entries, seen, f)
  }

  /** After the UPDATE, and the INSERT of the first `k` observations. */
  function Filled(t: Local, entries: seq<Entry>, k: nat, seen: Option<Time>): map<FileId, Copy>
    requires Known(t, entries) && k <= |entries|
  {
    map f | f in t.copies.Keys + Targets(t, entries[..k]) ::
      TargetsPrefix(t, entries, k); WrittenRow(t, entries, seen, f)
  }

  lemma TargetsPrefix(t: Local, entries: seq<Entry>, k: nat)
    requires Known(t, entries) && k <= |entries|
    ensures Known(t, entries[..k]) && Targets(t, entries[..k]) <= Targets(t, entries)
  {
  }

  lemma UpdatedStep(t: Local, entries: seq<Entry>, seen: Option<Time>)
    requires entries != [] && Distinct(entries) && Valid(t) && Known(t, entries)
    ensures Known(t, entries[..|entries| - 1])
    ensures var last := entries[|entries| - 1];
      var target, before := t.paths[last.path], Updated(t, entries[..|entries| - 1], seen);
      Updated(t, entries, seen) ==
        if target in t.copies then before[target := Refreshed(t.copies[target], last, seen, Keeper(t, target))]
          else before
  {
  }

  lemma FindOwn(t: Local, entries: seq<Entry>, k: nat)
    requires Distinct(entries) && Valid(t) && Known(t, entries) && k < |entries|
    ensures Find(t, entries, t.paths[entries[k].path]) == Some(entries[k])
  {
  }

  lemma FilledStep(t: Local, entries: seq<Entry>, k: nat, seen: Option<Time>)
    requires Distinct(entries) && Valid(t) && Known(t, entries) && k < |entries|
    ensures var target, before := t.paths[entries[k].path], Filled(t, entries, k, seen);
      Filled(t, entries, k + 1, seen) ==
        if target in t.copies then before else before[target := Inserted(entries[k], seen, Keeper(t, target))]
  {
    FindOwn(t, entries, k);
    TargetsPrefix(t, entries, k);
    assert Targets(t, entries[..k + 1]) == Targets(t, entries[..k]) + {t.paths[entries[k].path]};
    assert t.paths[entries[k].path] !in Targets(t, entries[..k]);
  }

  lemma {:induction false} ResolveInParts(s: Local, a: seq<Entry>, b: seq<Entry>)
    ensures ResolveAll(ResolveAll(s, a), b) == ResolveAll(s, a + b)
    decreases |b|
  {
    if b == [] {
      assert a + b == a;
    } else {
      assert (a + b)[..|a + b| - 1] == a + b[..|b| - 1];
      ResolveInParts(s, a, b[..|b| - 1]);
    }
  }

  lemma ChunkResolves(s: Local, last: seq<Entry>, offset: nat, end: nat)
    requires Valid(s) && Distinct(last) && offset <= end <= |last|
    ensures Distinct(last[offset..end]) && Valid(ResolveAll(s, last[..offset]))
    ensures ResolveAll(ResolveAll(s, last[..offset]), last[offset..end]) == ResolveAll(s, last[..end])
  {
    ChunkIsDistinct(last, offset, end);
    PrefixResolves(s, last, offset);
    ResolveInParts(s, last[..offset], last[offset..end]);
    assert last[..offset] + last[offset..end] == last[..end];
  }

  lemma ChunkIsDistinct(last: seq<Entry>, offset: nat, end: nat)
    requires Distinct(last) && offset <= end <= |last|
    ensures Distinct(last[offset..end])
  {
  }

  lemma PrefixResolves(s: Local, last: seq<Entry>, offset: nat)
    requires Valid(s) && offset <= |last|
    ensures Valid(ResolveAll(s, last[..offset]))
  {
    ResolveAllFacts(s, last[..offset]);
  }

  class Tables {
    var paths: map<Path, FileId>
    var copies: map<FileId, Copy>
    var keepers: map<FileId, VersionId>
    var groups: map<GroupId, set<FileId>>
    var next: FileId
    var journal: Journal

    ghost function Here(): Local
      reads this
    {
      Local(paths, copies, keepers, groups, next)
    }

    constructor (s: Local)
      ensures Here() == s && journal == map[]
    {
      paths, copies, keepers, groups, next, journal := s.paths, s.copies, s.keepers, s.groups, s.next, map[];
    }

    method GetOrCreateFile(path: Path) returns (f: FileId)
      modifies this`paths, this`next
      ensures Here() == Resolve(old(Here()), path) && path in paths && f == paths[path]
    {
      if path !in paths {
        paths, next := paths[path := next], next + 1;
      }
      f := paths[path];
    }

    /** The upsert of one observation. */
    method ObserveCopy(e: Entry, seen: Option<Time>)
      modifies this`paths, this`next, this`copies, this`groups
      ensures Here() == Observe(old(Here()), e, seen)
    {
      var f := GetOrCreateFile(e.path);
      var keeper := if f in keepers then Some(keepers[f]) else None;
      if f in copies {
        copies := copies[f := Refreshed(copies[f], e, seen, keeper)];
      } else {
        copies := copies[f := Inserted(e, seen, keeper)];
      }
      groups := Revoked(groups, {f});
    }

    method Deduplicate(entries: seq<Entry>) returns (last: seq<Entry>)
      ensures last == LastByPath(entries)
    {
      last := [];
      for k := 0 to |entries|
        invariant last == LastByPath(entries[..k])
      {
        assert entries[..k + 1][..k] == entries[..k];
        last := Put(last, entries[k]);
      }
      assert entries[..|entries|] == entries;
    }

    /** One chunk of a bulk identity pass: a lookup of all its paths, then an insert of those it did not find. */
    method ResolveChunk(chunk: seq<Entry>)
      requires Valid(Here()) && Distinct(chunk)
      modifies this`paths, this`next
      ensures Here() == BulkResolve(old(Here()), chunk) == ResolveAll(old(Here()), chunk)
    {
      ghost var s := Here();
      BulkIsFold(s, chunk);
      var missing: seq<Path> := [];
      for k := 0 to |chunk|
        invariant missing == NewPaths(s, chunk[..k])
      {
        assert chunk[..k + 1][..k] == chunk[..k];
        if chunk[k].path !in paths {
          missing := missing + [chunk[k].path];
        }
      }
      assert chunk[..|chunk|] == chunk;
      NewPathFacts(s, chunk);
      InsertPaths(missing);
    }

    method InsertPaths(missing: seq<Path>)
      requires forall p | p in missing :: p !in paths
      requires NoDuplicates(missing)
      modifies this`paths, this`next
      ensures paths == Minted(old(Here()), missing) && next == old(next) + |missing|
    {
      ghost var s := Here();
      assert Minted(s, []) == paths && missing[..0] == [];
      for k := 0 to |missing|
        invariant paths == Minted(s, missing[..k]) && next == s.next + k
      {
        assert missing[..k + 1] == missing[..k] + [missing[k]];
        assert missing[k] in missing && missing[k] !in missing[..k];
        MintedStep(s, missing[..k], missing[k]);
        paths, next := paths[missing[k] := next], next + 1;
      }
      assert missing[..|missing|] == missing;
    }

    /** Chunks of two hundred paths; together they resolve as one pass would. */
    method ResolveOrCreateFiles(last: seq<Entry>)
      requires Valid(Here()) && Distinct(last)
      modifies this`paths, this`next
      ensures Here() == BulkResolve(old(Here()), last)
    {
      ghost var s := Here();
      BulkIsFold(s, last);
      var offset := 0;
      while offset < |last|
        invariant offset <= |last| && Here() == ResolveAll(s, last[..offset])
      {
        var end := if offset + 200 <= |last| then offset + 200 else |last|;
        ChunkResolves(s, last, offset, end);
        ResolveChunk(last[offset..end]);
        offset := end;
      }
      assert last[..offset] == last;
    }

    method UpdateExisting(last: seq<Entry>, seen: Option<Time>)
      requires Valid(Here()) && Known(Here(), last) && Distinct(last)
      modifies this`copies
      ensures copies == Updated(old(Here()), last, seen)
    {
      var before := copies;
      ghost var t := Here();
      assert Updated(t, last[..0], seen) == before;
      for k := 0 to |last|
        invariant Known(t, last[..k]) && copies == Updated(t, last[..k], seen)
      {
        assert last[..k + 1][..k] == last[..k];
        UpdatedStep(t, last[..k + 1], seen);
        var f := paths[last[k].path];
        if f in before {
          copies := copies[f := Refreshed(before[f], last[k], seen, if f in keepers then Some(keepers[f]) else None)];
        }
      }
      assert last[..|last|] == last;
    }

    method InsertMissing(last: seq<Entry>, seen: Option<Time>, ghost t: Local)
      requires Valid(t) && Known(t, last) && Distinct(last)
      requires Here() == t.(copies := Updated(t, last, seen))
      modifies this`copies
      ensures copies == Written(t, last, seen)
    {
      var before := copies;
      assert Filled(t, last, 0, seen) == before;
      for k := 0 to |last|
        invariant copies == Filled(t, last, k, seen)
      {
        FilledStep(t, last, k, seen);
        var f := paths[last[k].path];
        if f !in before {
          copies := copies[f := Inserted(last[k], seen, if f in keepers then Some(keepers[f]) else None)];
        }
      }
      assert last[..|last|] == last;
    }

    /** One identity pass, one UPDATE, one INSERT and one revocation for many observations. */
    method ObserveBatch(entries: seq<Entry>, seen: Option<Time>)
      requires Valid(Here())
      modifies this`paths, this`next, this`copies, this`groups
      ensures Here() == Batch(old(Here()), entries, seen)
      ensures OthersPending(old(groups), groups, Touched(Here(), LastByPath(entries)))
    {
      var last := Deduplicate(entries);
      LastByPathFacts(entries);
      ResolveAllFacts(Here(), last);
      BulkIsFold(Here(), last);
      ResolveOrCreateFiles(last);
      ghost var t := Here();
      UpdateExisting(last, seen);
      InsertMissing(last, seen, t);
      var files := set k | 0 <= k < |last| :: paths[last[k].path];
      RevokedInColumns(groups, files);
      groups := Revoked(groups, files);
      assert Touched(Here(), last) == files;
    }

    /** Journals the paths a batch is about to overwrite, each path once. */
    method RecordJournal(entries: seq<Entry>)
      modifies this`journal
      ensures journal == Journaled(old(journal), Here(), entries)
    {
      ghost var j := journal;
      for k := 0 to |entries|
        invariant journal == Journaled(j, Here(), entries[..k])
      {
        var p := entries[k].path;
        assert PathsOf(entries[..k + 1]) == PathsOf(entries[..k]) + {p};
        if p !in journal {
          var snapshot := if p in paths
            then Somebody(paths[p], if paths[p] in copies then Some(copies[paths[p]]) else None) else Nobody;
          journal := journal[p := snapshot];
        }
      }
      assert entries[..|entries|] == entries;
    }

    method Flush(b: Chunk, scan: Time)
      requires Valid(Here())
      modifies this
      ensures Here() == Flushed(old(Here()), b, scan)
      ensures journal == Journaled(old(journal), old(Here()), b.entries)
      ensures forall p | p in b.invalid && p in paths && paths[p] in copies ::
        var c := copies[paths[p]]; c.digest == None && c.matched == None && c.content == Some(scan)
    {
      RecordJournal(b.entries);
      ObserveBatch(b.entries, Some(scan));
      var owners := set p | p in b.invalid && p in paths :: paths[p];
      copies := map f | f in copies ::
        if f in owners then copies[f].(content := Some(scan), digest := None, matched := None) else copies[f];
    }

    method PublishFingerprints(updates: seq<Update>, scan: Time)
      modifies this`copies
      ensures Here() == AllPublished(old(Here()), updates, scan)
      ensures Valid(old(Here())) ==> copies.Keys == old(copies).Keys && forall f | f in copies ::
        HashedOrSame(updates, f, old(copies)[f], copies[f], scan)
    {
      if Valid(Here()) { PublishedFacts(Here(), updates, scan); }
      for k := 0 to |updates|
        invariant Here() == AllPublished(old(Here()), updates[..k], scan)
      {
        assert updates[..k + 1][..k] == updates[..k];
        var u := updates[k];
        if u.file in copies && Applies(copies[u.file], u) {
          copies := copies[u.file := Fingerprinted(copies[u.file], u, scan)];
        }
      }
      assert updates[..|updates|] == updates;
    }

    /** Compensates path by path, under the compare-and-swap on the scan's stamp. */
    method Rollback(order: seq<Path>, scan: Time, attached: set<FileId>)
      requires forall p | p in order :: p in journal
      modifies this`paths, this`copies
      ensures Here() == RolledBack(old(Here()), order, journal, scan, attached)
    {
      for k := 0 to |order|
        invariant Here() == RolledBack(old(Here()), order[..k], journal, scan, attached)
      {
        assert order[..k + 1][..k] == order[..k];
        assert order[k] in order;
        RollbackPath(order[k], scan, attached);
      }
      assert order[..|order|] == order;
    }

    method RollbackPath(p: Path, scan: Time, attached: set<FileId>)
      requires p in journal
      modifies this`paths, this`copies
      ensures Here() == UndoPath(old(Here()), p, journal[p], scan, attached)
    {
      match journal[p]
      case Nobody =>
        if p in paths && paths[p] in copies && copies[paths[p]].lastSeen == Some(scan) && paths[p] !in attached {
          copies := copies - {paths[p]};
          paths := paths - {p};
        }
      case Somebody(f, None) =>
        if f in copies && copies[f].lastSeen == Some(scan) {
          copies := copies - {f};
        }
      case Somebody(f, Some(c)) =>
        if f in copies && copies[f].lastSeen == Some(scan) {
          copies := copies[f := c.(hold := copies[f].hold)];
        }
      SameMap(old(copies));
    }
  }

  lemma SameMap(m: map<FileId, Copy>)
    ensures forall f | f in m :: m[f := m[f]] == m
    ensures forall f | f !in m :: m - {f} == m
  {
  }
}
