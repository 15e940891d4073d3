/**
 A batch keeps the last observation of each path. This says for which batches that equals observing everything in
 turn, and shows a batch for which it does not.
 */
module RepeatedPaths {
  import opened Common
  import opened LocalCopies
  import opened Observations

  // ----- both forms resolve the same identities -----

  lemma {:induction false} FoldResolves(s: Local, entries: seq<Entry>, seen: Option<Time>)
    ensures Fold(s, entries, seen).paths == ResolveAll(s, entries).paths
    ensures Fold(s, entries, seen).next == ResolveAll(s, entries).next
  {
    if entries != [] {
      FoldResolves(s, entries[..|entries| - 1], seen);
    }
  }

  predicate SamePaths(a: seq<Entry>, b: seq<Entry>) {
    |a| == |b| && forall k | 0 <= k < |a| :: a[k].path == b[k].path
  }

  lemma {:induction false} ResolveBySamePaths(s: Local, a: seq<Entry>, b: seq<Entry>)
    requires SamePaths(a, b)
    ensures ResolveAll(s, a) == ResolveAll(s, b)
  {
    if a != [] {
      ResolveBySamePaths(s, a[..|a| - 1], b[..|b| - 1]);
    }
  }

  lemma {:induction false} PutKeepsPaths(last: seq<Entry>, e: Entry)
    requires HasPath(last, e.path)
    ensures SamePaths(last, Put(last, e))
  {
    if last[0].path != e.path {
      HeadAndRest(last);
      PutKeepsPaths(last[1..], e);
      assert forall k | 0 < k < |last| :: last[k] == last[1..][k - 1];
    }
  }

  lemma {:induction false} LastResolves(s: Local, entries: seq<Entry>)
    requires Valid(s)
    ensures ResolveAll(s, LastByPath(entries)) == ResolveAll(s, entries)
  {
    if entries != [] {
      var front, e := entries[..|entries| - 1], entries[|entries| - 1];
      var last := LastByPath(front);
      LastResolves(s, front);
      LastByPathFacts(front);
      if HasPath(last, e.path) {
        PutKeepsPaths(last, e);
        ResolveBySamePaths(s, last, Put(last, e));
        ResolveAllFacts(s, last);
        var k :| 0 <= k < |last| && last[k].path == e.path;
        assert last[k].path in ResolveAll(s, last).paths;
      } else {
        PutFacts(last, e);
        assert (last + [e])[..|last|] == last;
      }
    }
  }

  // ----- the last observation of a path -----

  function LastOnly(entries: seq<Entry>, p: Path): seq<Entry> {
    var only := Only(entries, p);
    if only == [] then [] else [only[|only| - 1]]
  }

  lemma {:induction false} OnlyInPut(last: seq<Entry>, e: Entry, p: Path)
    requires Distinct(last)
    ensures HeadOnly(Put(last, e), p) == if p == e.path then [e] else HeadOnly(last, p)
  {
    if last != [] {
      var rest, r := last[1..], Put(last, e);
      HeadIsAlone(last);
      if last[0].path == e.path {
        assert r[0] == e && r[1..] == rest;
        NoneInRest(rest, e.path);
      } else {
        OnlyInPut(rest, e, p);
        assert r[0] == last[0] && r[1..] == Put(rest, e);
        if p == last[0].path { NoneInRest(rest, p); }
      }
    }
  }

  /** The observations of one path, read from the front. */
  function HeadOnly(entries: seq<Entry>, p: Path): seq<Entry> {
    if entries == [] then []
    else if entries[0].path == p then [entries[0]] + HeadOnly(entries[1..], p)
    else HeadOnly(entries[1..], p)
  }

  lemma {:induction false} NoneInRest(entries: seq<Entry>, p: Path)
    requires !HasPath(entries, p)
    ensures HeadOnly(entries, p) == []
  {
    if entries != [] {
      HeadAndRest(entries);
      NoneInRest(entries[1..], p);
    }
  }

  lemma {:induction false} HeadOnlySplit(front: seq<Entry>, e: Entry, p: Path)
    ensures HeadOnly(front + [e], p) == if e.path == p then HeadOnly(front, p) + [e] else HeadOnly(front, p)
  {
    if front == [] {
      assert [e][1..] == [] && front + [e] == [e];
    } else {
      assert (front + [e])[0] == front[0] && (front + [e])[1..] == front[1..] + [e];
      HeadOnlySplit(front[1..], e, p);
    }
  }

  lemma {:induction false} BothOnly(entries: seq<Entry>, p: Path)
    ensures HeadOnly(entries, p) == Only(entries, p)
  {
    if entries != [] {
      var front, e := entries[..|entries| - 1], entries[|entries| - 1];
      BothOnly(front, p);
      HeadOnlySplit(front, e, p);
      assert front + [e] == entries;
    }
  }

  lemma {:induction false} OnlyOfLast(entries: seq<Entry>, p: Path)
    ensures Only(LastByPath(entries), p) == LastOnly(entries, p)
  {
    if entries != [] {
      var front, e := entries[..|entries| - 1], entries[|entries| - 1];
      OnlyOfLast(front, p);
      OnlyPut(LastByPath(front), e, p);
      LastByPathFacts(front);
      assert LastByPath(entries) == Put(LastByPath(front), e);
      LastOnlySplit(entries, p);
    }
  }

  lemma OnlyPut(last: seq<Entry>, e: Entry, p: Path)
    ensures Distinct(last) ==> Only(Put(last, e), p) == if p == e.path then [e] else Only(last, p)
  {
    if Distinct(last) {
      OnlyInPut(last, e, p);
    }
    BothOnly(last, p);
    BothOnly(Put(last, e), p);
  }

  lemma LastOnlySplit(entries: seq<Entry>, p: Path)
    requires entries != []
    ensures LastOnly(entries, p) ==
      if entries[|entries| - 1].path == p then [entries[|entries| - 1]] else LastOnly(entries[..|entries| - 1], p)
  {
  }

  // ----- when the two forms agree -----

  /**
   What the observations before the last one would have done to the row is done by the last one as well: no fingerprint
   is dropped on the way, no hold placed, and the content is dated alike.
   */
  predicate LastTellsAll(row: Option<Copy>, es: seq<Entry>, keeper: Option<VersionId>) {
    es == [] ||
    var last := es[|es| - 1];
    && (row.Some? && Saw(row.value, last) && !NeverDiffers(row, es) ==>
          row.value.digest.None? && row.value.matched.None?)
    && (EverReappears(row, es) && !EverReappears(row, [last]) ==> HeldBefore(row) == keeper)
    && Dated(row, es) == Dated(row, [last])
  }

  /** The file is present after an observation exactly if that saw a regular file, so an absent one has reappeared. */
  lemma {:induction false} FirstRegularReappears(row: Option<Copy>, es: seq<Entry>, k: nat)
    requires k < |es| && es[k].fileType.Regular? && (row.None? || !row.value.presence.Present?)
    ensures EverReappears(row, es)
  {
    if k > 0 && es[k - 1].fileType.Regular? {
      FirstRegularReappears(row, es, k - 1);
    } else {
      assert Reappears(row, es, k);
    }
  }

  lemma LastReappears(row: Option<Copy>, es: seq<Entry>)
    requires es != [] && EverReappears(row, [es[|es| - 1]])
    ensures EverReappears(row, es)
  {
    FirstRegularReappears(row, es, |es| - 1);
  }

  /** All observations of a row end where the last one alone ends exactly when the last one tells all. */
  lemma RowAgrees(row: Option<Copy>, es: seq<Entry>, seen: Option<Time>, keeper: Option<VersionId>)
    requires es != []
    ensures FoldRow(row, es, seen, keeper) == FoldRow(row, [es[|es| - 1]], seen, keeper)
       <==> LastTellsAll(row, es, keeper)
  {
    var last := es[|es| - 1];
    RowInClosedForm(row, es, seen, keeper);
    RowInClosedForm(row, [last], seen, keeper);
    assert NeverDiffers(row, es) ==> Saw(row.value, last);
    if EverReappears(row, [last]) { LastReappears(row, es); }
  }

  predicate PathAgrees(s: Local, entries: seq<Entry>, p: Path) {
    var t := ResolveAll(s, entries);
    p in t.paths ==> LastTellsAll(Lookup(s, t.paths[p]), Only(entries, p), Keeper(s, t.paths[p]))
  }

  lemma SameCopies(a: map<FileId, Copy>, b: map<FileId, Copy>)
    requires forall f :: (f in a <==> f in b) && (f in a ==> a[f] == b[f])
    ensures a == b
  {
  }

  lemma SameLookups(a: Local, b: Local)
    requires forall f :: Lookup(a, f) == Lookup(b, f)
    ensures a.copies == b.copies
  {
    forall f: FileId ensures (f in a.copies <==> f in b.copies) && (f in a.copies ==> a.copies[f] == b.copies[f]) {
      assert Lookup(a, f) == Lookup(b, f);
    }
    SameCopies(a.copies, b.copies);
  }

  lemma TouchedAlike(t: Local, entries: seq<Entry>)
    ensures Touched(t, LastByPath(entries)) == Touched(t, entries)
  {
    var last := LastByPath(entries);
    LastByPathFacts(entries);
    forall f ensures f in Touched(t, last) <==> f in Touched(t, entries) {
      if k :| 0 <= k < |last| && last[k].path in t.paths && t.paths[last[k].path] == f {
        assert HasPath(last, last[k].path);
        assert HasPath(entries, last[k].path);
      }
      if k :| 0 <= k < |entries| && entries[k].path in t.paths && t.paths[entries[k].path] == f {
        assert HasPath(entries, entries[k].path);
        assert HasPath(last, entries[k].path);
      }
    }
  }

  /** Everything but the rows is the same in both forms. */
  lemma FrameAlike(s: Local, entries: seq<Entry>, seen: Option<Time>)
    requires Valid(s)
    ensures var b, f := Batch(s, entries, seen), Fold(s, entries, seen);
      && b == Fold(s, LastByPath(entries), seen)
      && b.paths == f.paths == ResolveAll(s, entries).paths && b.next == f.next && b.keepers == f.keepers &&
        b.groups == f.groups
  {
    var last := LastByPath(entries);
    BatchIsFold(s, entries, seen);
    FoldResolves(s, entries, seen);
    FoldResolves(s, last, seen);
    LastResolves(s, entries);
    FoldIsRowByRow(s, entries, seen);
    FoldIsRowByRow(s, last, seen);
    TouchedAlike(Fold(s, entries, seen), entries);
    SameTouched(Fold(s, entries, seen), Fold(s, last, seen), last);
  }

  lemma SameTouched(a: Local, b: Local, entries: seq<Entry>)
    requires a.paths == b.paths
    ensures Touched(a, entries) == Touched(b, entries)
  {
  }

  /** The row of a path in both forms: all its observations folded, and its last one alone. */
  lemma BothRows(s: Local, entries: seq<Entry>, seen: Option<Time>, p: Path)
    requires Valid(s) && p in ResolveAll(s, entries).paths
    ensures var f := ResolveAll(s, entries).paths[p];
      && Lookup(Fold(s, entries, seen), f) == FoldRow(Lookup(s, f), Only(entries, p), seen, Keeper(s, f))
      && Lookup(Batch(s, entries, seen), f) == FoldRow(Lookup(s, f), LastOnly(entries, p), seen, Keeper(s, f))
  {
    var last := LastByPath(entries);
    FrameAlike(s, entries, seen);
    RowOfPath(s, entries, seen, p);
    RowOfPath(s, last, seen, p);
    OnlyOfLast(entries, p);
  }

  lemma RowOfPath(s: Local, entries: seq<Entry>, seen: Option<Time>, p: Path)
    requires Valid(s) && p in Fold(s, entries, seen).paths
    ensures RowIs(s, Fold(s, entries, seen), entries, seen, p)
  {
    FoldIsRowByRow(s, entries, seen);
  }

  lemma RowsAlike(s: Local, entries: seq<Entry>, seen: Option<Time>, p: Path)
    requires Valid(s) && p in ResolveAll(s, entries).paths
    ensures var f := ResolveAll(s, entries).paths[p];
      Lookup(Batch(s, entries, seen), f) == Lookup(Fold(s, entries, seen), f) <==> PathAgrees(s, entries, p)
  {
    BothRows(s, entries, seen, p);
    var f := ResolveAll(s, entries).paths[p];
    LastAgrees(Lookup(s, f), entries, p, seen, Keeper(s, f));
  }

  lemma LastAgrees(row: Option<Copy>, entries: seq<Entry>, p: Path, seen: Option<Time>, keeper: Option<VersionId>)
    ensures FoldRow(row, LastOnly(entries, p), seen, keeper) == FoldRow(row, Only(entries, p), seen, keeper)
       <==> LastTellsAll(row, Only(entries, p), keeper)
  {
    if Only(entries, p) != [] { RowAgrees(row, Only(entries, p), seen, keeper); }
  }

  lemma OthersAlike(s: Local, entries: seq<Entry>, seen: Option<Time>, f: FileId)
    requires Valid(s) && forall p | p in ResolveAll(s, entries).paths :: ResolveAll(s, entries).paths[p] != f
    ensures Lookup(Batch(s, entries, seen), f) == Lookup(Fold(s, entries, seen), f)
  {
    FrameAlike(s, entries, seen);
    FoldIsRowByRow(s, entries, seen);
    FoldIsRowByRow(s, LastByPath(entries), seen);
  }

  /**
   For any batch, with any number of repetitions, the batched form equals observing everything in turn exactly when,
   for every path, its last observation tells all: a row whose content the last one sees again but another one did not
   has no fingerprint to lose, a hold placed on the way is the hold it had, and the content is dated alike.
   */
  lemma RepeatedPathAgrees(s: Local, entries: seq<Entry>, seen: Option<Time>)
    requires Valid(s)
    ensures Batch(s, entries, seen) == Fold(s, entries, seen) <==> forall p :: PathAgrees(s, entries, p)
  {
    var b, f := Batch(s, entries, seen), Fold(s, entries, seen);
    var t := ResolveAll(s, entries);
    FrameAlike(s, entries, seen);
    if b == f {
      forall p ensures PathAgrees(s, entries, p) {
        if p in t.paths { RowsAlike(s, entries, seen, p); }
      }
    }
    if forall p :: PathAgrees(s, entries, p) {
      forall g ensures Lookup(b, g) == Lookup(f, g) {
        if p :| p in t.paths && t.paths[p] == g {
          RowsAlike(s, entries, seen, p);
        } else {
          OthersAlike(s, entries, seen, g);
        }
      }
      SameLookups(b, f);
    }
  }

  // ----- a condition to check beforehand -----

  /** What skipping an earlier observation `a` of the path must not disturb. */
  predicate Skippable(c: Copy, a: Entry, b: Entry, keeper: Option<VersionId>) {
    var same := c.presence == SeenAs(b.fileType) && Saw(c, b);
    if a.fileType == b.fileType && a.size == b.size && a.mtime == b.mtime then
      same || a.at == b.at
    else
      && (Saw(c, b) ==> c.digest.None? && c.matched.None?)
      && (same ==> (if c.content.Some? then c.content.value else c.observed) == b.at)
      && (c.presence.Present? && !a.fileType.Regular? && b.fileType.Regular? ==> c.hold == keeper)
      && (!c.presence.Present? && a.fileType.Regular? && !b.fileType.Regular? ==> c.hold == keeper)
  }

  /** The same for a file that had no row. */
  predicate SkippableNew(a: Entry, b: Entry, keeper: Option<VersionId>) {
    && (a.fileType == b.fileType && a.size == b.size && a.mtime == b.mtime ==> a.at == b.at)
    && (a.fileType.Regular? && !b.fileType.Regular? ==> keeper.None?)
  }

  predicate SkippableBefore(row: Option<Copy>, a: Entry, b: Entry, keeper: Option<VersionId>) {
    if row.Some? then Skippable(row.value, a, b, keeper) else SkippableNew(a, b, keeper)
  }

  /** Skipping `a` right before `b` changes nothing exactly when it is skippable. */
  lemma SkippedRow(row: Option<Copy>, a: Entry, b: Entry, seen: Option<Time>, keeper: Option<VersionId>)
    ensures Observed(Some(Observed(row, a, seen, keeper)), b, seen, keeper) == Observed(row, b, seen, keeper)
       <==> SkippableBefore(row, a, b, keeper)
  {
  }

  /** Every observation of the path may be skipped before the next one. */
  predicate Chain(row: Option<Copy>, es: seq<Entry>, keeper: Option<VersionId>) {
    forall k | 0 <= k < |es| - 1 :: SkippableBefore(row, es[k], es[k + 1], keeper)
  }

  lemma {:induction false} ChainCollapses(row: Option<Copy>, es: seq<Entry>, seen: Option<Time>,
    keeper: Option<VersionId>)
    requires es != [] && Chain(row, es, keeper)
    ensures FoldRow(row, es, seen, keeper) == Some(Observed(row, es[|es| - 1], seen, keeper))
  {
    var front, last := es[..|es| - 1], es[|es| - 1];
    if front != [] {
      ChainCollapses(row, front, seen, keeper);
      SkippedRow(row, front[|front| - 1], last, seen, keeper);
      assert es[|es| - 2] == front[|front| - 1];
    }
  }

  /** If each repeated observation is skippable before the next one of its path, the two forms agree. */
  lemma SkippableChainsAgree(s: Local, entries: seq<Entry>, seen: Option<Time>)
    requires Valid(s)
    requires forall p | p in ResolveAll(s, entries).paths ::
      var f := ResolveAll(s, entries).paths[p]; Chain(Lookup(s, f), Only(entries, p), Keeper(s, f))
    ensures Batch(s, entries, seen) == Fold(s, entries, seen)
  {
    var t := ResolveAll(s, entries);
    forall p ensures PathAgrees(s, entries, p) {
      var es := Only(entries, p);
      if p in t.paths && es != [] {
        var f, last := t.paths[p], es[|es| - 1];
        ChainCollapses(Lookup(s, f), es, seen, Keeper(s, f));
        assert [last][..0] == [] && FoldRow(Lookup(s, f), [], seen, Keeper(s, f)) == Lookup(s, f);
        RowAgrees(Lookup(s, f), es, seen, Keeper(s, f));
      }
    }
    RepeatedPathAgrees(s, entries, seen);
  }

  lemma TwoRows(row: Option<Copy>, a: Entry, b: Entry, seen: Option<Time>, keeper: Option<VersionId>)
    ensures FoldRow(row, [b], seen, keeper) == Some(Observed(row, b, seen, keeper))
    ensures FoldRow(row, [a, b], seen, keeper) == Some(Observed(Some(Observed(row, a, seen, keeper)), b, seen, keeper))
  {
    FoldRowSplit(row, [], a, seen, keeper);
    FoldRowSplit(row, [], b, seen, keeper);
    FoldRowSplit(row, [a], b, seen, keeper);
    assert [] + [a] == [a] && [] + [b] == [b] && [a] + [b] == [a, b];
  }

  lemma TwoEntries(s: Local, a: Entry, b: Entry)
    requires a.path == b.path && a.path in s.paths
    ensures Only([a, b], a.path) == [a, b] && LastOnly([a, b], a.path) == [b] && ResolveAll(s, [a, b]) == s
  {
    OnlySplit([], a, a.path);
    OnlySplit([a], b, a.path);
    assert [] + [a] == [a] && [a] + [b] == [a, b];
    assert [a, b][..1] == [a] && [a][..0] == [];
    assert ResolveAll(s, [a]) == s;
  }

  /** A file edited and edited back within one batch keeps a fingerprint that separate observations drop. */
  lemma RepeatedPathDiffers()
    ensures exists s: Local, entries: seq<Entry> :: Valid(s) && Batch(s, entries, None) != Fold(s, entries, None)
  {
    var c := Copy(Present, Regular, Some(1), Some(1), Some(9), None, None, 0, None, None);
    var s := Local(map["p" := 0], map[0 := c], map[], map[], 1);
    var a, b := Entry("p", Regular, Some(2), Some(2), 5), Entry("p", Regular, Some(1), Some(1), 6);
    TwoEntries(s, a, b);
    TwoRows(Some(c), a, b, None, None);
    SkippedRow(Some(c), a, b, None, None);
    RowAgrees(Some(c), [a, b], None, None);
    assert Keeper(s, 0) == None && Lookup(s, 0) == Some(c);
    assert Valid(s) && !PathAgrees(s, [a, b], "p");
    RepeatedPathAgrees(s, [a, b], None);
  }
}
