/**
 What a sequence of observations leaves behind, in closed form: where each file's row comes from, when a fingerprint
 survives, when a hold is placed, since when the content is unchanged, and which pending deletions are revoked.
 */
module Observations {
  import opened Common
  import opened LocalCopies

  /** Paths keep their files, and new paths get new ones. */
  predicate KeepsPaths(s: Local, t: Local) {
    && Valid(t) && s.next <= t.next
    && (forall p | p in s.paths :: p in t.paths && t.paths[p] == s.paths[p])
    && (forall p | p in t.paths && p !in s.paths :: s.next <= t.paths[p])
  }

  lemma ObserveKeepsPaths(s: Local, t: Local, e: Entry, seen: Option<Time>)
    requires Valid(s) && KeepsPaths(s, t)
    ensures KeepsPaths(s, Observe(t, e, seen)) && e.path in Observe(t, e, seen).paths
  {
    if e.path !in t.paths {
      FreshPath(t.paths, e.path, t.next);
    }
  }

  lemma {:induction false} FoldKeepsPaths(s: Local, entries: seq<Entry>, seen: Option<Time>)
    requires Valid(s)
    ensures KeepsPaths(s, Fold(s, entries, seen))
  {
    if entries != [] {
      FoldKeepsPaths(s, entries[..|entries| - 1], seen);
      ObserveKeepsPaths(s, Fold(s, entries[..|entries| - 1], seen), entries[|entries| - 1], seen);
    }
  }

  /** The observation found the type, size and time the row describes. */
  predicate Saw(c: Copy, e: Entry) {
    c.fileType == e.fileType && c.size == e.size && c.mtime == e.mtime
  }

  function SeenAs(t: FileType): Presence {
    match t case Regular => Present case Symlink => Unsupported case Other => Unsupported
  }

  /** Every observation of the file saw the content its row describes. */
  predicate AlwaysSame(s: Local, entries: seq<Entry>, f: FileId)
    requires f in s.copies
  {
    forall k | 0 <= k < |entries| && Concerns(s, entries[k], f) :: Saw(s.copies[f], entries[k])
  }

  predicate HasDigest(s: Local, f: FileId, d: Digest) {
    f in s.copies && s.copies[f].digest == Some(d)
  }

  predicate SameStats(a: Copy, b: Copy) {
    a.fileType == b.fileType && a.size == b.size && a.mtime == b.mtime
  }

  predicate Concerns(s: Local, e: Entry, f: FileId) {
    e.path in s.paths && s.paths[e.path] == f
  }

  lemma SurvivesOne(t: Local, e: Entry, seen: Option<Time>, f: FileId, d: Digest)
    requires Valid(t)
    ensures HasDigest(Observe(t, e, seen), f, d) <==>
      HasDigest(t, f, d) && (Concerns(t, e, f) ==> Saw(t.copies[f], e))
    ensures HasDigest(Observe(t, e, seen), f, d) ==> SameStats(Observe(t, e, seen).copies[f], t.copies[f])
  {
  }

  lemma AlwaysSameSplit(s: Local, entries: seq<Entry>, f: FileId)
    requires f in s.copies && entries != []
    ensures AlwaysSame(s, entries, f) <==>
      AlwaysSame(s, entries[..|entries| - 1], f)
      && (Concerns(s, entries[|entries| - 1], f) ==> Saw(s.copies[f], entries[|entries| - 1]))
  {
    assert forall k | 0 <= k < |entries| - 1 :: entries[..|entries| - 1][k] == entries[k];
  }

  /** A fingerprint outlives a sequence of observations exactly when none of them saw anything else. */
  lemma {:induction false} FingerprintSurvives(s: Local, entries: seq<Entry>, seen: Option<Time>, f: FileId, d: Digest)
    requires Valid(s)
    ensures HasDigest(Fold(s, entries, seen), f, d) <==> HasDigest(s, f, d) && AlwaysSame(s, entries, f)
    ensures HasDigest(Fold(s, entries, seen), f, d) ==> SameStats(Fold(s, entries, seen).copies[f], s.copies[f])
  {
    if entries != [] {
      var front, last := entries[..|entries| - 1], entries[|entries| - 1];
      FingerprintSurvives(s, front, seen, f, d);
      FoldKeepsPaths(s, front, seen);
      SurvivesOne(Fold(s, front, seen), last, seen, f, d);
      if HasDigest(s, f, d) {
        AlwaysSameSplit(s, entries, f);
      }
    }
  }

  // ----- each row is folded on its own -----

  /** One observation of a file that may or may not have a row. */
  function Observed(row: Option<Copy>, e: Entry, seen: Option<Time>, keeper: Option<VersionId>): Copy {
    if row.Some? then Refreshed(row.value, e, seen, keeper) else Inserted(e, seen, keeper)
  }

  function FoldRow(row: Option<Copy>, es: seq<Entry>, seen: Option<Time>, keeper: Option<VersionId>): Option<Copy> {
    if es == [] then row else Some(Observed(FoldRow(row, es[..|es| - 1], seen, keeper), es[|es| - 1], seen, keeper))
  }

  /** The observations of one path, in order. */
  function Only(entries: seq<Entry>, p: Path): seq<Entry> {
    if entries == [] then []
    else
      var front, e := Only(entries[..|entries| - 1], p), entries[|entries| - 1];
      if e.path == p then front + [e] else front
  }

  predicate RowIs(s: Local, t: Local, entries: seq<Entry>, seen: Option<Time>, p: Path)
    requires p in t.paths
  {
    var f := t.paths[p];
    Lookup(t, f) == FoldRow(Lookup(s, f), Only(entries, p), seen, Keeper(s, f))
  }

  lemma OnlySplit(front: seq<Entry>, e: Entry, p: Path)
    ensures Only(front + [e], p) == if e.path == p then Only(front, p) + [e] else Only(front, p)
  {
    assert (front + [e])[..|front|] == front;
  }

  lemma FoldRowSplit(row: Option<Copy>, es: seq<Entry>, e: Entry, seen: Option<Time>, keeper: Option<VersionId>)
    ensures FoldRow(row, es + [e], seen, keeper) == Some(Observed(FoldRow(row, es, seen, keeper), e, seen, keeper))
  {
    assert (es + [e])[..|es|] == es;
  }

  ghost predicate Unnamed(t: Local, f: FileId) {
    forall p | p in t.paths :: t.paths[p] != f
  }

  /** A state whose rows and revocations are those of the observations, file by file. */
  ghost predicate RowByRow(s: Local, t: Local, entries: seq<Entry>, seen: Option<Time>) {
    && KeepsPaths(s, t) && t.keepers == s.keepers
    && (forall p | p in t.paths :: RowIs(s, t, entries, seen, p))
    && (forall f | Unnamed(t, f) :: Lookup(t, f) == Lookup(s, f))
    && t.groups == Revoked(s.groups, Touched(t, entries))
  }

  function Touched(t: Local, entries: seq<Entry>): set<FileId> {
    set k | 0 <= k < |entries| && entries[k].path in t.paths :: t.paths[entries[k].path]
  }

  lemma OnlyIsEmpty(s: Local, entries: seq<Entry>, seen: Option<Time>, p: Path)
    requires Valid(s) && p !in Fold(s, entries, seen).paths
    ensures Only(entries, p) == []
    decreases |entries|
  {
    if entries != [] {
      FoldKeepsPaths(s, entries[..|entries| - 1], seen);
      ObserveKeepsPaths(s, Fold(s, entries[..|entries| - 1], seen), entries[|entries| - 1], seen);
      OnlyIsEmpty(s, entries[..|entries| - 1], seen, p);
    }
  }

  lemma ObserveRow(t: Local, e: Entry, seen: Option<Time>, f: FileId)
    requires Valid(t)
    ensures var t' := Observe(t, e, seen);
      && e.path in t'.paths
      && Lookup(t', f) == (if f == t'.paths[e.path] then Some(Observed(Lookup(t, f), e, seen, Keeper(t, f)))
        else Lookup(t, f))
      && t'.groups == Revoked(t.groups, {t'.paths[e.path]}) && t'.keepers == t.keepers
      && t'.paths == (if e.path in t.paths then t.paths else t.paths[e.path := t.next])
  {
  }

  lemma RowStep(s: Local, t: Local, front: seq<Entry>, e: Entry, seen: Option<Time>, p: Path)
    requires Valid(s) && KeepsPaths(s, t) && t.keepers == s.keepers && p in t.paths && RowIs(s, t, front, seen, p)
    ensures p in Observe(t, e, seen).paths && RowIs(s, Observe(t, e, seen), front + [e], seen, p)
  {
    var f, t' := t.paths[p], Observe(t, e, seen);
    ObserveRow(t, e, seen, f);
    OnlySplit(front, e, p);
    assert Keeper(t, f) == Keeper(s, f);
    if e.path == p {
      FoldRowSplit(Lookup(s, f), Only(front, p), e, seen, Keeper(s, f));
    } else {
      assert t'.paths[e.path] != f;
    }
  }

  lemma NewRowStep(s: Local, t: Local, front: seq<Entry>, e: Entry, seen: Option<Time>)
    requires Valid(s) && KeepsPaths(s, t) && t.keepers == s.keepers && e.path !in t.paths && Only(front, e.path) == []
    ensures e.path in Observe(t, e, seen).paths && RowIs(s, Observe(t, e, seen), front + [e], seen, e.path)
  {
    var f := Observe(t, e, seen).paths[e.path];
    ObserveRow(t, e, seen, f);
    OnlySplit(front, e, e.path);
    FoldRowSplit(Lookup(s, f), [], e, seen, Keeper(s, f));
    assert Lookup(t, f) == None && Lookup(s, f) == None;
  }

  /** Exactly the pending selections without any of these files are still pending, as they were. */
  ghost predicate OthersPending(groups: map<GroupId, set<FileId>>, groups': map<GroupId, set<FileId>>,
    files: set<FileId>)
  {
    && (forall g :: g in groups' <==> g in groups && forall f | f in groups[g] :: f !in files)
    && (forall g | g in groups' :: groups'[g] == groups[g])
  }

  lemma RevokedInColumns(groups: map<GroupId, set<FileId>>, files: set<FileId>)
    ensures OthersPending(groups, Revoked(groups, files), files)
  {
  }

  /**
   Observing one file after the other folds every row on its own observations, and revokes every pending deletion that
   holds an observed file.
   */
  lemma {:induction false} FoldIsRowByRow(s: Local, entries: seq<Entry>, seen: Option<Time>)
    requires Valid(s)
    ensures RowByRow(s, Fold(s, entries, seen), entries, seen)
    ensures OthersPending(s.groups, Fold(s, entries, seen).groups, Touched(Fold(s, entries, seen), entries))
  {
    FoldedRows(s, entries, seen);
    RevokedInColumns(s.groups, Touched(Fold(s, entries, seen), entries));
  }

  lemma {:induction false} FoldedRows(s: Local, entries: seq<Entry>, seen: Option<Time>)
    requires Valid(s)
    ensures RowByRow(s, Fold(s, entries, seen), entries, seen)
  {
    if entries == [] {
      NothingObserved(s, seen);
    } else {
      var front, e := entries[..|entries| - 1], entries[|entries| - 1];
      FoldedRows(s, front, seen);
      RowsStep(s, Fold(s, front, seen), front, e, seen, Fold(s, entries, seen), entries);
    }
  }

  lemma NothingObserved(s: Local, seen: Option<Time>)
    requires Valid(s)
    ensures RowByRow(s, s, [], seen)
  {
    assert Touched(s, []) == {} && Revoked(s.groups, {}) == s.groups;
  }

  lemma RowsStep(s: Local, t: Local, front: seq<Entry>, e: Entry, seen: Option<Time>, t': Local, entries: seq<Entry>)
    requires Valid(s) && t == Fold(s, front, seen) && RowByRow(s, t, front, seen)
    requires t' == Observe(t, e, seen) && entries == front + [e]
    ensures RowByRow(s, t', entries, seen)
  {
    ObserveKeepsPaths(s, t, e, seen);
    ObserveRow(t, e, seen, 0);
    forall p | p in t'.paths ensures RowIs(s, t', entries, seen, p) {
      EachRowStep(s, t, front, e, seen, p);
    }
    forall f | Unnamed(t', f) ensures Lookup(t', f) == Lookup(s, f) {
      UnnamedStep(s, t, e, seen, f);
    }
    RevokedStep(s, t, front, e, seen);
  }

  lemma EachRowStep(s: Local, t: Local, front: seq<Entry>, e: Entry, seen: Option<Time>, p: Path)
    requires Valid(s) && t == Fold(s, front, seen) && RowByRow(s, t, front, seen)
    requires p in Observe(t, e, seen).paths
    ensures RowIs(s, Observe(t, e, seen), front + [e], seen, p)
  {
    if p in t.paths {
      RowStep(s, t, front, e, seen, p);
    } else {
      OnlyIsEmpty(s, front, seen, p);
      NewRowStep(s, t, front, e, seen);
    }
  }

  lemma UnnamedStep(s: Local, t: Local, e: Entry, seen: Option<Time>, f: FileId)
    requires Valid(t) && Unnamed(Observe(t, e, seen), f) && (Unnamed(t, f) ==> Lookup(t, f) == Lookup(s, f))
    ensures Lookup(Observe(t, e, seen), f) == Lookup(s, f)
  {
    ObserveRow(t, e, seen, f);
    PathsStep(t, e, seen);
    assert Observe(t, e, seen).paths[e.path] != f;
  }

  lemma PathsStep(t: Local, e: Entry, seen: Option<Time>)
    ensures Observe(t, e, seen).paths.Keys == t.paths.Keys + {e.path}
    ensures forall p | p in t.paths :: Observe(t, e, seen).paths[p] == t.paths[p]
  {
  }

  lemma RevokedStep(s: Local, t: Local, front: seq<Entry>, e: Entry, seen: Option<Time>)
    requires Valid(t) && Valid(Observe(t, e, seen)) && t == Fold(s, front, seen) && Valid(s)
    requires t.groups == Revoked(s.groups, Touched(t, front))
    ensures Observe(t, e, seen).groups == Revoked(s.groups, Touched(Observe(t, e, seen), front + [e]))
  {
    var t' := Observe(t, e, seen);
    var all := front + [e];
    ObserveRow(t, e, seen, 0);
    FoldKnows(s, front, seen);
    RevokedTwice(s.groups, Touched(t, front), {t'.paths[e.path]});
    forall f ensures f in Touched(t', all) <==> f in Touched(t, front) || f == t'.paths[e.path] {
      if k :| 0 <= k < |front| && front[k].path in t.paths && t.paths[front[k].path] == f {
        assert all[k].path in t'.paths && t'.paths[all[k].path] == f;
      }
      if k :| 0 <= k < |all| && all[k].path in t'.paths && t'.paths[all[k].path] == f {
        if k < |front| { assert front[k].path in t.paths && t.paths[front[k].path] == f; }
      }
      assert all[|front|] == e;
    }
    assert Touched(t', all) == Touched(t, front) + {t'.paths[e.path]};
  }

  lemma {:induction false} FoldKnows(s: Local, entries: seq<Entry>, seen: Option<Time>)
    requires Valid(s)
    ensures forall k | 0 <= k < |entries| :: entries[k].path in Fold(s, entries, seen).paths
  {
    if entries != [] {
      var front := entries[..|entries| - 1];
      FoldKnows(s, front, seen);
      FoldKeepsPaths(s, front, seen);
      forall k | 0 <= k < |entries| ensures entries[k].path in Fold(s, entries, seen).paths {
        if k < |front| { assert front[k].path in Fold(s, front, seen).paths; }
      }
    }
  }

  // ----- holds -----

  /** The observation finds the file present where it was not before. */
  predicate Reappears(row: Option<Copy>, es: seq<Entry>, k: nat)
    requires k < |es|
  {
    es[k].fileType.Regular? &&
      (if k == 0 then row.None? || !row.value.presence.Present? else !es[k - 1].fileType.Regular?)
  }

  predicate EverReappears(row: Option<Copy>, es: seq<Entry>) {
    exists k :: 0 <= k < |es| && Reappears(row, es, k)
  }

  lemma ReappearsSplit(row: Option<Copy>, es: seq<Entry>)
    requires es != []
    ensures EverReappears(row, es) <==> EverReappears(row, es[..|es| - 1]) || Reappears(row, es, |es| - 1)
  {
    var front := es[..|es| - 1];
    if k :| 0 <= k < |front| && Reappears(row, front, k) { assert Reappears(row, es, k); }
    if k :| 0 <= k < |es| && Reappears(row, es, k) {
      if k < |front| { assert Reappears(row, front, k); }
    }
  }

  function HeldBefore(row: Option<Copy>): Option<VersionId> {
    if row.Some? then row.value.hold else None
  }

  /** A hold is on the newest recoverable version exactly if the file ever reappeared, and is otherwise as it was. */
  lemma {:induction false} HoldIsPlaced(row: Option<Copy>, es: seq<Entry>, seen: Option<Time>,
    keeper: Option<VersionId>)
    requires es != []
    ensures var c := FoldRow(row, es, seen, keeper).value;
      && c.presence == SeenAs(es[|es| - 1].fileType)
      && c.hold == if EverReappears(row, es) then keeper else HeldBefore(row)
  {
    ReappearsSplit(row, es);
    if |es| > 1 {
      HoldIsPlaced(row, es[..|es| - 1], seen, keeper);
    } else {
      assert es[..0] == [] && FoldRow(row, [], seen, keeper) == row && !EverReappears(row, []);
    }
  }

  // ----- content times -----

  /** The observation differs from what was known before it. */
  predicate Changes(row: Option<Copy>, es: seq<Entry>, k: nat)
    requires k < |es|
  {
    if k == 0 then row.None? || row.value.presence != SeenAs(es[0].fileType) || !Saw(row.value, es[0])
    else !(es[k].fileType == es[k - 1].fileType && es[k].size == es[k - 1].size && es[k].mtime == es[k - 1].mtime)
  }

  /** When the last observation that changed anything was made, if one did. */
  function ChangedAt(row: Option<Copy>, es: seq<Entry>): Option<Time> {
    if es == [] then None
    else if Changes(row, es, |es| - 1) then Some(es[|es| - 1].at)
    else ChangedAt(row, es[..|es| - 1])
  }

  function DatedBefore(row: Option<Copy>): Option<Time> {
    if row.None? then None else if row.value.content.Some? then row.value.content else Some(row.value.observed)
  }

  function Dated(row: Option<Copy>, es: seq<Entry>): Option<Time> {
    if ChangedAt(row, es).Some? then ChangedAt(row, es) else DatedBefore(row)
  }

  /** The content is dated by the last observation that changed it, or as it was if none did. */
  lemma {:induction false} ContentIsDated(row: Option<Copy>, es: seq<Entry>, seen: Option<Time>,
    keeper: Option<VersionId>)
    requires es != []
    ensures var c := FoldRow(row, es, seen, keeper).value;
      && c.presence == SeenAs(es[|es| - 1].fileType) && Saw(c, es[|es| - 1])
      && c.content == Dated(row, es)
  {
    if |es| > 1 {
      ContentIsDated(row, es[..|es| - 1], seen, keeper);
    } else {
      assert es[..0] == [] && FoldRow(row, [], seen, keeper) == row && ChangedAt(row, []) == None;
    }
  }

  // ----- the whole row -----

  /** There was a row, and every observation saw the content it describes. */
  predicate NeverDiffers(row: Option<Copy>, es: seq<Entry>) {
    row.Some? && forall k | 0 <= k < |es| :: Saw(row.value, es[k])
  }

  lemma {:induction false} DigestIsKept(row: Option<Copy>, es: seq<Entry>, seen: Option<Time>,
    keeper: Option<VersionId>)
    requires es != []
    ensures var c := FoldRow(row, es, seen, keeper).value;
      && c.digest == (if NeverDiffers(row, es) then row.value.digest else None)
      && c.matched == (if NeverDiffers(row, es) then row.value.matched else None)
      && Saw(c, es[|es| - 1])
  {
    var front := es[..|es| - 1];
    assert NeverDiffers(row, es) <==> NeverDiffers(row, front) && Saw(row.value, es[|es| - 1]);
    if |es| > 1 {
      DigestIsKept(row, front, seen, keeper);
      assert front[|front| - 1] == es[|es| - 2];
    } else {
      assert front == [] && FoldRow(row, [], seen, keeper) == row;
    }
  }

  /** The row after any observations, from the row before and the observations alone. */
  function ClosedForm(row: Option<Copy>, es: seq<Entry>, seen: Option<Time>, keeper: Option<VersionId>): Copy
    requires es != []
  {
    var last := es[|es| - 1];
    Copy(SeenAs(last.fileType), last.fileType, last.size, last.mtime,
         if NeverDiffers(row, es) then row.value.digest else None,
         if NeverDiffers(row, es) then row.value.matched else None,
         if seen.Some? then seen else Some(last.at), last.at, Dated(row, es),
         if EverReappears(row, es) then keeper else HeldBefore(row))
  }

  lemma RowInClosedForm(row: Option<Copy>, es: seq<Entry>, seen: Option<Time>, keeper: Option<VersionId>)
    requires es != []
    ensures FoldRow(row, es, seen, keeper) == Some(ClosedForm(row, es, seen, keeper))
  {
    DigestIsKept(row, es, seen, keeper);
    HoldIsPlaced(row, es, seen, keeper);
    ContentIsDated(row, es, seen, keeper);
  }
}
