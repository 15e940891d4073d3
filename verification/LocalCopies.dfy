/**
 Observing local files: the per-file upsert and the batched statements. Fresh ids are taken in order, so
 both forms can be compared exactly; creation stamps are not part of the model.
 */
module LocalCopies {
  import opened Common

  type VersionId = nat
  type GroupId = nat
  type Digest = nat

  datatype FileType = Regular | Symlink | Other

  datatype Copy = Copy(
    presence: Presence,
    fileType: FileType,
    size: Option<int>,
    mtime: Option<int>,
    digest: Option<Digest>,
    matched: Option<VersionId>,
    lastSeen: Option<Time>,
    observed: Time,
    content: Option<Time>,            // content_observed_at
    hold: Option<VersionId>)          // cloud_only_version_id

  /**
   One Vault: current paths, Local Copy rows, the newest verified available version of each file, and the
   selections whose delayed deletion is still pending.
   */
  datatype Local = Local(
    paths: map<Path, FileId>,
    copies: map<FileId, Copy>,
    keepers: map<FileId, VersionId>,
    groups: map<GroupId, set<FileId>>,
    next: FileId)

  datatype Entry = Entry(path: Path, fileType: FileType, size: Option<int>, mtime: Option<int>, at: Time)

  predicate OnePathPerFile(paths: map<Path, FileId>) {
    forall p, q | p in paths && q in paths && p != q :: paths[p] != paths[q]
  }

  /** Each file has one current path, and ids in use are below `next`. */
  predicate Valid(s: Local) {
    && OnePathPerFile(s.paths)
    && (forall p | p in s.paths :: s.paths[p] < s.next)
    && (forall f | f in s.copies :: f < s.next)
  }

  function PresenceOf(t: FileType): Presence {
    if t.Regular? then Present else Unsupported
  }

  function Seen(e: Entry, seen: Option<Time>): Option<Time> {
    if seen.Some? then seen else Some(e.at)
  }

  function Keeper(s: Local, f: FileId): Option<VersionId> {
    if f in s.keepers then Some(s.keepers[f]) else None
  }

  function Lookup(s: Local, f: FileId): Option<Copy> {
    if f in s.copies then Some(s.copies[f]) else None
  }

  predicate SameContent(c: Copy, e: Entry) {
    c.fileType == e.fileType && c.size == e.size && c.mtime == e.mtime
  }

  /** The row inserted for a file without one. */
  function Inserted(e: Entry, seen: Option<Time>, keeper: Option<VersionId>): Copy {
    Copy(PresenceOf(e.fileType), e.fileType, e.size, e.mtime, None, None, Seen(e, seen), e.at, Some(e.at),
         if e.fileType.Regular? then keeper else None)
  }

  /** The row updated by an observation: a reappearance is held, a fingerprint survives unchanged stats. */
  function Refreshed(c: Copy, e: Entry, seen: Option<Time>, keeper: Option<VersionId>): Copy {
    Copy(PresenceOf(e.fileType), e.fileType, e.size, e.mtime,
         if SameContent(c, e) then c.digest else None,
         if SameContent(c, e) then c.matched else None,
         Seen(e, seen), e.at,
         if c.presence == PresenceOf(e.fileType) && SameContent(c, e)
         then (if c.content.Some? then c.content else Some(c.observed)) else Some(e.at),
         if e.fileType.Regular? && !c.presence.Present? then keeper else c.hold)
  }

  function Row(s: Local, f: FileId, e: Entry, seen: Option<Time>): Copy {
    if f in s.copies then Refreshed(s.copies[f], e, seen, Keeper(s, f)) else Inserted(e, seen, Keeper(s, f))
  }

  /** A reappearance revokes every pending selection that holds one of the files, whole. */
  function Revoked(groups: map<GroupId, set<FileId>>, files: set<FileId>): map<GroupId, set<FileId>> {
    map g | g in groups && groups[g] !! files :: groups[g]
  }

  function Resolve(s: Local, path: Path): Local {
    if path in s.paths then s else s.(paths := s.paths[path := s.next], next := s.next + 1)
  }

  /** `observe_local_copy`. */
  function Observe(s: Local, e: Entry, seen: Option<Time>): Local {
    var t := Resolve(s, e.path);
    var f := t.paths[e.path];
    t.(copies := t.copies[f := Row(t, f, e, seen)], groups := Revoked(t.groups, {f}))
  }

  function Fold(s: Local, entries: seq<Entry>, seen: Option<Time>): Local {
    if entries == [] then s
    else Observe(Fold(s, entries[..|entries| - 1], seen), entries[|entries| - 1], seen)
  }

  // ----- the batch -----

  predicate Distinct(entries: seq<Entry>) {
    forall i, j :: 0 <= i < j < |entries| ==> entries[i].path != entries[j].path
  }

  function Put(last: seq<Entry>, e: Entry): seq<Entry> {
    if last == [] then [e]
    else if last[0].path == e.path then [e] + last[1..]
    else [last[0]] + Put(last[1..], e)
  }

  /** Keeps the first position and the last observation of each path, as a dictionary does. */
  function LastByPath(entries: seq<Entry>): seq<Entry> {
    if entries == [] then [] else Put(LastByPath(entries[..|entries| - 1]), entries[|entries| - 1])
  }

  function ResolveAll(s: Local, entries: seq<Entry>): Local {
    if entries == [] then s
    else Resolve(ResolveAll(s, entries[..|entries| - 1]), entries[|entries| - 1].path)
  }

  /** Paths the catalog does not know, in the order of the batch. */
  function NewPaths(s: Local, entries: seq<Entry>): seq<Path> {
    if entries == [] then []
    else
      var front, p := NewPaths(s, entries[..|entries| - 1]), entries[|entries| - 1].path;
      if p in s.paths then front else front + [p]
  }

  /** Position of the last occurrence. */
  function Place(paths: seq<Path>, p: Path): nat {
    if paths == [] then 0 else if paths[|paths| - 1] == p then |paths| - 1 else Place(paths[..|paths| - 1], p)
  }

  function FileFor(s: Local, missing: seq<Path>, p: Path): FileId {
    if p in s.paths then s.paths[p] else s.next + Place(missing, p)
  }

  /** Known paths keep their files, the others get consecutive new ones. */
  function Minted(s: Local, missing: seq<Path>): map<Path, FileId> {
    map p | p in s.paths.Keys + (set k | 0 <= k < |missing| :: missing[k]) :: FileFor(s, missing, p)
  }

  /** One lookup against the catalog as it is, then one insert of everything it does not know. */
  function BulkResolve(s: Local, entries: seq<Entry>): Local {
    var missing := NewPaths(s, entries);
    s.(paths := Minted(s, missing), next := s.next + |missing|)
  }

  predicate Known(s: Local, entries: seq<Entry>) {
    forall k | 0 <= k < |entries| :: entries[k].path in s.paths
  }

  function Targets(s: Local, entries: seq<Entry>): set<FileId>
    requires Known(s, entries)
  {
    set k | 0 <= k < |entries| :: s.paths[entries[k].path]
  }

  /** The joined observation of a file, if the batch has one. */
  function Find(s: Local, entries: seq<Entry>, f: FileId): Option<Entry>
    requires Known(s, entries)
  {
    if entries == [] then None
    else if s.paths[entries[|entries| - 1].path] == f then Some(entries[|entries| - 1])
    else Find(s, entries[..|entries| - 1], f)
  }

  lemma {:induction false} FindMeans(s: Local, entries: seq<Entry>, f: FileId)
    requires Known(s, entries)
    ensures f in Targets(s, entries) <==> Find(s, entries, f).Some?
    ensures Find(s, entries, f).Some? ==>
      Find(s, entries, f).value in entries && s.paths[Find(s, entries, f).value.path] == f
  {
    if entries != [] {
      FindMeans(s, entries[..|entries| - 1], f);
      var front, last := entries[..|entries| - 1], entries[|entries| - 1];
      assert Targets(s, entries) == Targets(s, front) + {s.paths[last.path]};
    }
  }

  /** Only identities were added, with fresh ids. */
  predicate Extends(s: Local, t: Local) {
    && t.copies == s.copies && t.keepers == s.keepers && t.groups == s.groups && s.next <= t.next
    && (forall p | p in s.paths :: p in t.paths && t.paths[p] == s.paths[p])
    && (forall p | p in t.paths && p !in s.paths :: s.next <= t.paths[p])
  }

  predicate HasPath(entries: seq<Entry>, p: Path) {
    exists k :: 0 <= k < |entries| && entries[k].path == p
  }

  lemma ResolveExtends(s: Local, t: Local, p: Path)
    requires Valid(t) && Extends(s, t)
    ensures Valid(Resolve(t, p)) && Extends(s, Resolve(t, p))
    ensures Extends(t, Resolve(t, p)) && Resolve(t, p).paths.Keys == t.paths.Keys + {p}
  {
    if p !in t.paths {
      FreshPath(t.paths, p, t.next);
    }
  }

  lemma FreshPath(paths: map<Path, FileId>, p: Path, f: FileId)
    requires OnePathPerFile(paths) && p !in paths && forall q | q in paths :: paths[q] < f
    ensures OnePathPerFile(paths[p := f])
  {
  }

  lemma {:induction false} ResolveAllFacts(s: Local, entries: seq<Entry>)
    requires Valid(s)
    ensures Valid(ResolveAll(s, entries)) && Extends(s, ResolveAll(s, entries))
    ensures Known(ResolveAll(s, entries), entries)
    ensures forall p | p in ResolveAll(s, entries).paths && p !in s.paths :: HasPath(entries, p)
  {
    if entries != [] {
      var front, last := entries[..|entries| - 1], entries[|entries| - 1];
      var t := ResolveAll(s, front);
      ResolveAllFacts(s, front);
      ResolveExtends(s, t, last.path);
      forall p | p in Resolve(t, last.path).paths && p !in s.paths ensures HasPath(entries, p) {
        if p != last.path {
          var k :| 0 <= k < |front| && front[k].path == p;
          assert entries[k].path == p;
        }
      }
      forall k | 0 <= k < |entries| ensures entries[k].path in Resolve(t, last.path).paths {
        if k < |front| { assert front[k].path in t.paths; }
      }
    }
  }

  lemma {:induction false} NewPathFacts(s: Local, entries: seq<Entry>)
    requires Distinct(entries)
    ensures forall p :: p in NewPaths(s, entries) <==> HasPath(entries, p) && p !in s.paths
    ensures NoDuplicates(NewPaths(s, entries))
  {
    if entries != [] {
      var front, last := entries[..|entries| - 1], entries[|entries| - 1];
      NewPathFacts(s, front);
      assert entries == front + [last];
      forall p ensures HasPath(entries, p) <==> HasPath(front, p) || p == last.path {
        HasPathSplit(entries, p);
      }
      assert !HasPath(front, last.path);
    }
  }

  lemma HasPathSplit(entries: seq<Entry>, p: Path)
    requires entries != []
    ensures HasPath(entries, p) <==> HasPath(entries[..|entries| - 1], p) || entries[|entries| - 1].path == p
  {
    var front := entries[..|entries| - 1];
    if k :| 0 <= k < |entries| && entries[k].path == p {
      if k < |front| { assert front[k].path == p; }
    }
    if k :| 0 <= k < |front| && front[k].path == p { assert entries[k].path == p; }
  }

  lemma PlaceInPrefix(paths: seq<Path>, last: Path, p: Path)
    requires p != last
    ensures Place(paths + [last], p) == Place(paths, p) && Place(paths + [last], last) == |paths|
  {
    assert (paths + [last])[..|paths|] == paths;
  }

  /** The bulk pass hands out the same ids as resolving one path after the other. */
  lemma {:induction false} BulkIsFold(s: Local, entries: seq<Entry>)
    requires Valid(s) && Distinct(entries)
    ensures BulkResolve(s, entries) == ResolveAll(s, entries)
  {
    if entries == [] {
      assert Minted(s, []) == s.paths;
    } else {
      LastIsNew(s, entries);
      BulkIsFold(s, entries[..|entries| - 1]);
      BulkNext(s, entries);
    }
  }

  lemma BulkNext(s: Local, entries: seq<Entry>)
    requires entries != [] && entries[|entries| - 1].path !in NewPaths(s, entries[..|entries| - 1])
    ensures BulkResolve(s, entries) == Resolve(BulkResolve(s, entries[..|entries| - 1]), entries[|entries| - 1].path)
  {
    MintedResolve(s, NewPaths(s, entries[..|entries| - 1]), entries[|entries| - 1].path);
  }

  lemma LastIsNew(s: Local, entries: seq<Entry>)
    requires entries != [] && Distinct(entries)
    ensures Distinct(entries[..|entries| - 1]) && entries[|entries| - 1].path !in NewPaths(s, entries[..|entries| - 1])
  {
    NewPathFacts(s, entries[..|entries| - 1]);
  }

  lemma MintedResolve(s: Local, missing: seq<Path>, p: Path)
    requires p !in missing
    ensures var b := s.(paths := Minted(s, missing), next := s.next + |missing|);
      var all := if p in s.paths then missing else missing + [p];
      Resolve(b, p) == s.(paths := Minted(s, all), next := s.next + |all|)
  {
    if p !in s.paths {
      MintedStep(s, missing, p);
    } else {
      assert p in Minted(s, missing);
    }
  }

  lemma MintedStep(s: Local, missing: seq<Path>, p: Path)
    requires p !in s.paths && p !in missing
    ensures p !in Minted(s, missing)
    ensures Minted(s, missing + [p]) == Minted(s, missing)[p := s.next + |missing|]
  {
    var longer := missing + [p];
    assert forall q :: q in longer <==> q in missing || q == p;
    assert forall q :: q in Minted(s, longer) <==> q in s.paths || q in longer;
    assert forall q :: q in Minted(s, missing) <==> q in s.paths || q in missing;
    forall q | q in Minted(s, longer) && q != p ensures Minted(s, longer)[q] == Minted(s, missing)[q] {
      PlaceInPrefix(missing, p, q);
    }
    assert longer[..|missing|] == missing;
  }

  /** The two statements of the batch: existing rows are updated from the join, missing ones inserted. */
  function WrittenRow(t: Local, entries: seq<Entry>, seen: Option<Time>, f: FileId): Copy
    requires Known(t, entries) && f in t.copies.Keys + Targets(t, entries)
  {
    FindMeans(t, entries, f);
    if Find(t, entries, f).Some? then Row(t, f, Find(t, entries, f).value, seen) else t.copies[f]
  }

  function Written(t: Local, entries: seq<Entry>, seen: Option<Time>): map<FileId, Copy>
    requires Known(t, entries)
  {
    map f | f in t.copies.Keys + Targets(t, entries) :: WrittenRow(t, entries, seen, f)
  }

  /** The UPDATE, the INSERT and the revocation, once every path has its file. */
  function BatchFrom(t: Local, entries: seq<Entry>, seen: Option<Time>): Local
    requires Known(t, entries)
  {
    t.(copies := Written(t, entries, seen), groups := Revoked(t.groups, Targets(t, entries)))
  }

  /** `observe_local_copies_batch` on observations that are already one per path. */
  function BatchOnce(s: Local, entries: seq<Entry>, seen: Option<Time>): Local
    requires Valid(s) && Distinct(entries)
  {
    BulkIsFold(s, entries);
    ResolveAllFacts(s, entries);
    BatchFrom(BulkResolve(s, entries), entries, seen)
  }

  function Batch(s: Local, entries: seq<Entry>, seen: Option<Time>): Local
    requires Valid(s)
  {
    LastByPathFacts(entries);
    BatchOnce(s, LastByPath(entries), seen)
  }

  // ----- the batch is the fold -----

  lemma {:induction false} FindStable(t: Local, t': Local, entries: seq<Entry>, f: FileId)
    requires Known(t, entries) && Extends(t, t')
    ensures Known(t', entries) && Find(t', entries, f) == Find(t, entries, f)
  {
    if entries != [] {
      assert Known(t, entries[..|entries| - 1]);
      FindStable(t, t', entries[..|entries| - 1], f);
    }
  }

  lemma TargetsStable(t: Local, t': Local, entries: seq<Entry>)
    requires Known(t, entries) && Extends(t, t')
    ensures Known(t', entries) && Targets(t', entries) == Targets(t, entries)
  {
  }

  lemma RevokedTwice(groups: map<GroupId, set<FileId>>, a: set<FileId>, b: set<FileId>)
    ensures Revoked(Revoked(groups, a), b) == Revoked(groups, a + b)
  {
  }

  /** With distinct paths, the last observation targets a file no other one targets. */
  lemma LastTarget(s: Local, entries: seq<Entry>)
    requires entries != [] && Distinct(entries) && Valid(s) && Known(s, entries)
    ensures s.paths[entries[|entries| - 1].path] !in Targets(s, entries[..|entries| - 1])
    ensures Targets(s, entries) == Targets(s, entries[..|entries| - 1]) + {s.paths[entries[|entries| - 1].path]}
  {
  }

  predicate Grown(t: Local, t': Local, entries: seq<Entry>) {
    && entries != [] && Distinct(entries) && Valid(t') && Extends(t, t')
    && Known(t, entries[..|entries| - 1]) && Known(t', entries)
  }

  lemma FindStep(t: Local, t': Local, entries: seq<Entry>, f: FileId)
    requires Grown(t, t', entries)
    ensures var front, last := entries[..|entries| - 1], entries[|entries| - 1];
      && Targets(t', entries) == Targets(t, front) + {t'.paths[last.path]} && t'.paths[last.path] !in Targets(t, front)
      && Find(t', entries, f) == (if f == t'.paths[last.path] then Some(last) else Find(t, front, f))
  {
    LastTarget(t', entries);
    TargetsStable(t, t', entries[..|entries| - 1]);
    FindStable(t, t', entries[..|entries| - 1], f);
  }

  lemma WrittenRowStep(t: Local, t': Local, entries: seq<Entry>, seen: Option<Time>, f: FileId)
    requires Grown(t, t', entries)
    ensures var front, last := entries[..|entries| - 1], entries[|entries| - 1];
      && (f in t'.copies.Keys + Targets(t', entries) <==>
        f == t'.paths[last.path] || f in t.copies.Keys + Targets(t, front))
      && (f == t'.paths[last.path] ==>
        WrittenRow(t', entries, seen, f) == Row(t, f, last, seen) && f !in Targets(t, front))
      && (f != t'.paths[last.path] && f in t.copies.Keys + Targets(t, front) ==>
            WrittenRow(t', entries, seen, f) == WrittenRow(t, front, seen, f))
  {
    FindStep(t, t', entries, f);
  }

  lemma WrittenStep(t: Local, t': Local, entries: seq<Entry>, seen: Option<Time>)
    requires Grown(t, t', entries)
    ensures var before, target := Written(t, entries[..|entries| - 1], seen), t'.paths[entries[|entries| - 1].path];
      && (target in before <==> target in t.copies)
      && (target in before ==> before[target] == t.copies[target])
      && Written(t', entries, seen) == before[target := Row(t, target, entries[|entries| - 1], seen)]
  {
    var before, after := Written(t, entries[..|entries| - 1], seen), Written(t', entries, seen);
    var target := t'.paths[entries[|entries| - 1].path];
    WrittenRowStep(t, t', entries, seen, target);
    FindMeans(t, entries[..|entries| - 1], target);
    forall f | f in after.Keys + before.Keys
      ensures f in after
      ensures f != target ==> f in before && after[f] == before[f]
    {
      WrittenRowStep(t, t', entries, seen, f);
    }
  }

  lemma ResolvedStep(s: Local, entries: seq<Entry>)
    requires Valid(s) && entries != [] && Distinct(entries)
    ensures var t, t' := ResolveAll(s, entries[..|entries| - 1]), ResolveAll(s, entries);
      Grown(t, t', entries) && t' == Resolve(t, entries[|entries| - 1].path) && t.groups == t'.groups == s.groups
  {
    ResolveAllFacts(s, entries[..|entries| - 1]);
    ResolveAllFacts(s, entries);
    ResolveExtends(s, ResolveAll(s, entries[..|entries| - 1]), entries[|entries| - 1].path);
  }

  lemma BatchStep(t: Local, t': Local, entries: seq<Entry>, seen: Option<Time>)
    requires Grown(t, t', entries) && t' == Resolve(t, entries[|entries| - 1].path)
    ensures BatchFrom(t', entries, seen) ==
      Observe(BatchFrom(t, entries[..|entries| - 1], seen), entries[|entries| - 1], seen)
  {
    var front, e := entries[..|entries| - 1], entries[|entries| - 1];
    WrittenStep(t, t', entries, seen);
    FindStep(t, t', entries, t'.paths[e.path]);
    RevokedTwice(t.groups, Targets(t, front), {t'.paths[e.path]});
    ObserveAmong(t, BatchFrom(t, front, seen), e, seen);
  }

  /** An observation looks at nothing but the row of its own file. */
  lemma ObserveAmong(t: Local, u: Local, e: Entry, seen: Option<Time>)
    requires u == t.(copies := u.copies, groups := u.groups)
    requires var f := Resolve(t, e.path).paths[e.path]; Lookup(u, f) == Lookup(t, f)
    ensures var t' := Resolve(t, e.path);
      var f := t'.paths[e.path];
      Observe(u, e, seen) == t'.(copies := u.copies[f := Row(t, f, e, seen)], groups := Revoked(u.groups, {f}))
  {
  }

  lemma {:induction false} BatchFromIsFold(s: Local, entries: seq<Entry>, seen: Option<Time>)
    requires Valid(s) && Distinct(entries)
    ensures Known(ResolveAll(s, entries), entries)
    ensures BatchFrom(ResolveAll(s, entries), entries, seen) == Fold(s, entries, seen)
  {
    ResolveAllFacts(s, entries);
    if entries == [] {
      assert Revoked(s.groups, {}) == s.groups;
      assert Written(s, [], seen) == s.copies;
    } else {
      BatchFromIsFold(s, entries[..|entries| - 1], seen);
      ResolvedStep(s, entries);
      BatchStep(ResolveAll(s, entries[..|entries| - 1]), ResolveAll(s, entries), entries, seen);
    }
  }

  lemma BatchOnceIsFold(s: Local, entries: seq<Entry>, seen: Option<Time>)
    requires Valid(s) && Distinct(entries)
    ensures BatchOnce(s, entries, seen) == Fold(s, entries, seen)
  {
    BulkIsFold(s, entries);
    BatchFromIsFold(s, entries, seen);
  }

  // ----- repeated paths -----

  lemma {:induction false} PutPaths(last: seq<Entry>, e: Entry, p: Path)
    ensures HasPath(Put(last, e), p) <==> HasPath(last, p) || p == e.path
  {
    var r := Put(last, e);
    if last == [] {
      assert r[0] == e;
    } else {
      HeadAndRest(last);
      HeadAndRest(r);
      if last[0].path == e.path {
        assert r[1..] == last[1..];
      } else {
        PutPaths(last[1..], e, p);
        assert r[1..] == Put(last[1..], e);
      }
    }
  }

  lemma {:induction false} PutFacts(last: seq<Entry>, e: Entry)
    requires Distinct(last)
    ensures Distinct(Put(last, e))
    ensures !HasPath(last, e.path) ==> Put(last, e) == last + [e]
  {
    if last != [] {
      var r, rest := Put(last, e), last[1..];
      HeadAndRest(last);
      HeadIsAlone(last);
      if last[0].path != e.path {
        PutFacts(rest, e);
        PutPaths(rest, e, last[0].path);
        assert r[1..] == Put(rest, e);
        DistinctFrom(r);
      }
    }
  }

  lemma HeadIsAlone(entries: seq<Entry>)
    requires entries != [] && Distinct(entries)
    ensures !HasPath(entries[1..], entries[0].path)
  {
  }

  lemma DistinctFrom(entries: seq<Entry>)
    requires entries != [] && Distinct(entries[1..]) && !HasPath(entries[1..], entries[0].path)
    ensures Distinct(entries)
  {
    forall i, j | 0 <= i < j < |entries| ensures entries[i].path != entries[j].path {
      assert entries[1..][j - 1] == entries[j];
      if i > 0 {
        assert entries[1..][i - 1] == entries[i];
      }
    }
  }

  lemma HeadAndRest(entries: seq<Entry>)
    requires entries != []
    ensures forall p :: HasPath(entries, p) <==> entries[0].path == p || HasPath(entries[1..], p)
  {
  }

  lemma {:induction false} LastByPathFacts(entries: seq<Entry>)
    ensures Distinct(LastByPath(entries))
    ensures forall p :: HasPath(LastByPath(entries), p) <==> HasPath(entries, p)
    ensures Distinct(entries) ==> LastByPath(entries) == entries
  {
    if entries != [] {
      var front, e := entries[..|entries| - 1], entries[|entries| - 1];
      LastByPathFacts(front);
      PutFacts(LastByPath(front), e);
      forall p ensures HasPath(LastByPath(entries), p) <==> HasPath(LastByPath(front), p) || p == e.path {
        PutPaths(LastByPath(front), e, p);
      }
      forall p ensures HasPath(entries, p) <==> HasPath(front, p) || p == e.path {
        if k :| 0 <= k < |entries| && entries[k].path == p {
          if k < |front| { assert front[k].path == p; }
        }
        if k :| 0 <= k < |front| && front[k].path == p { assert entries[k].path == p; }
      }
      if Distinct(entries) {
        assert !HasPath(front, e.path);
        assert entries == front + [e];
      }
    }
  }

  /**
   The batched statements do what observing one file after the other does, for rows, holds, fingerprints,
   times and revoked deletions: on pairwise distinct paths exactly, otherwise for the last observation of
   each path.
   */
  lemma BatchIsFold(s: Local, entries: seq<Entry>, seen: Option<Time>)
    requires Valid(s)
    ensures Batch(s, entries, seen) == Fold(s, LastByPath(entries), seen)
    ensures Distinct(entries) ==> Batch(s, entries, seen) == Fold(s, entries, seen)
  {
    LastByPathFacts(entries);
    BatchOnceIsFold(s, LastByPath(entries), seen);
  }
}
