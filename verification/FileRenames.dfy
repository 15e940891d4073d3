/**
 Recognising a rename: a file that went missing and a new file with the same content are one file that
 moved. Confirmation is six conditional statements, each checked against the full snapshot of the pair.
 */
module FileRenames {
  import opened Common
  import opened LocalCopies

  const RENAME_WINDOW: nat := 3600      // one hour, in seconds

  datatype Status = Active | Retired | Purged
  datatype FileRow = FileRow(status: Status, retiredAt: Option<Time>)
  datatype Place = Place(path: Path, since: Time)
  datatype Closed = Closed(file: FileId, place: Place, until: Time)

  datatype Tables = Tables(
    files: map<FileId, FileRow>,
    current: map<FileId, Place>,       // path rows that are still open
    closed: seq<Closed>,               // path history
    copies: map<FileId, Copy>,
    archived: set<FileId>,             // files with an Archive Version
    busy: set<FileId>)                 // files with a job that is not finished

  /** One current path per Vault path. */
  predicate OneFilePerPath(t: Tables) {
    forall f, g | f in t.current && g in t.current && f != g :: t.current[f].path != t.current[g].path
  }

  // ----- candidates -----

  predicate Eligible(t: Tables, f: FileId, presence: Presence, d: Digest) {
    && f in t.files && t.files[f].status.Active?
    && f in t.current
    && f in t.copies && t.copies[f].fileType.Regular? && t.copies[f].presence == presence
    && t.copies[f].digest == Some(d) && t.copies[f].hold.None?
  }

  predicate Alone(t: Tables, f: FileId, presence: Presence, d: Digest) {
    Eligible(t, f, presence, d) && forall g | g in t.copies && Eligible(t, g, presence, d) :: g == f
  }

  predicate WithinWindow(a: Time, b: Time) {
    a <= b + RENAME_WINDOW && b <= a + RENAME_WINDOW
  }

  /** The only missing and the only present file of a digest, seen close together, and free to be merged. */
  predicate Candidate(t: Tables, m: FileId, q: FileId, d: Digest) {
    && Alone(t, m, Absent, d) && Alone(t, q, Present, d)
    && WithinWindow(t.copies[m].observed, t.copies[q].observed)
    && q !in t.archived && q !in t.busy && m !in t.busy
  }

  // ----- the snapshot and the six statements -----

  datatype Pair = Pair(m: FileId, q: FileId, mFile: FileRow, mPlace: Place, mCopy: Copy, qFile: FileRow, qPlace: Place,
    qCopy: Copy)

  predicate Both(t: Tables, m: FileId, q: FileId) {
    m in t.files && m in t.current && m in t.copies && q in t.files && q in t.current && q in t.copies
  }

  function PairOf(t: Tables, m: FileId, q: FileId): Pair
    requires Both(t, m, q)
  {
    Pair(m, q, t.files[m], t.current[m], t.copies[m], t.files[q], t.current[q], t.copies[q])
  }

  /** The columns of a copy that the snapshot compares. */
  predicate SameRow(a: Copy, b: Copy) {
    && a.presence == b.presence && a.fileType == b.fileType && a.size == b.size && a.mtime == b.mtime
    && a.digest == b.digest && a.matched == b.matched && a.lastSeen == b.lastSeen && a.observed == b.observed
  }

  predicate FileIs(t: Tables, f: FileId, row: FileRow) { f in t.files && t.files[f] == row }
  predicate PlaceIs(t: Tables, f: FileId, place: Place) { f in t.current && t.current[f] == place }
  predicate CopyIs(t: Tables, f: FileId, copy: Copy) { f in t.copies && SameRow(t.copies[f], copy) }

  predicate Taken(current: map<FileId, Place>, path: Path) {
    exists f | f in current :: current[f].path == path
  }

  /** What each conditional statement demands of what it sees. */
  predicate Guard(k: nat, v: Tables, s: Pair, at: Time) {
    && FileIs(v, s.m, s.mFile) && CopyIs(v, s.m, s.mCopy) && s.q !in v.archived
    && FileIs(v, s.q, if k == 0 then s.qFile else FileRow(Retired, Some(at)))
    && (if k <= 1 then PlaceIs(v, s.q, s.qPlace) else Closed(s.q, s.qPlace, at) in v.closed)
    && (if k <= 2 then CopyIs(v, s.q, s.qCopy) else s.q !in v.copies)
    && (if k <= 3 then PlaceIs(v, s.m, s.mPlace)
        else if k == 4 then Closed(s.m, s.mPlace, at) in v.closed
        else PlaceIs(v, s.m, Place(s.qPlace.path, at)))
    && (k == 0 ==> s.qFile.status.Active?)
    && (k == 4 ==> !Taken(v.current, s.qPlace.path))
  }

  function Merged(m: Copy, q: Copy, at: Time): Copy {
    m.(presence := q.presence, fileType := q.fileType, size := q.size, mtime := q.mtime, digest := q.digest,
       matched := q.matched, lastSeen := if q.lastSeen.Some? then q.lastSeen else Some(at), observed := q.observed)
  }

  /**
   Retire the provisional file, close its path, delete its copy, close the old path, open the new one, move the
   fingerprint.
   */
  function Statement(k: nat, v: Tables, s: Pair, at: Time): Tables {
    match k
    case 0 => v.(files := v.files[s.q := FileRow(Retired, Some(at))])
    case 1 => v.(current := v.current - {s.q}, closed := v.closed + [Closed(s.q, s.qPlace, at)])
    case 2 => v.(copies := v.copies - {s.q})
    case 3 => v.(current := v.current - {s.m}, closed := v.closed + [Closed(s.m, s.mPlace, at)])
    case 4 => v.(current := v.current[s.m := Place(s.qPlace.path, at)])
    case _ => if s.m in v.copies then v.(copies := v.copies[s.m := Merged(v.copies[s.m], s.qCopy, at)]) else v
  }

  /** Our first `k` uncommitted statements on top of what everyone else has committed. */
  function Overlay(base: Tables, k: nat, s: Pair, at: Time): Tables {
    if k == 0 then base else Statement(k - 1, Overlay(base, k - 1, s, at), s, at)
  }

  datatype Result = Failed(tables: Tables) | Done(tables: Tables)

  /**
   `bases[k]` is what others have committed when statement `k` runs. A statement that finds its snapshot
   changed rolls all of ours back to the savepoint.
   */
  function Confirm(bases: seq<Tables>, k: nat, s: Pair, at: Time): Result
    requires |bases| == 6 && k <= 6
    decreases 6 - k
  {
    if k == 6 then Done(Overlay(bases[5], 6, s, at))
    else if Passes(k, bases[k], s, at) then Confirm(bases, k + 1, s, at)
    else Failed(bases[k])
  }

  // ----- all or nothing -----

  /** The file, its open path and all but the bookkeeping columns of its copy are as they were read. */
  predicate AsRead(t: Tables, f: FileId, file: FileRow, place: Place, c: Copy) {
    && f in t.files && t.files[f] == file && f in t.current && t.current[f] == place
    && f in t.copies && var d := t.copies[f];
    && d.presence == c.presence && d.fileType == c.fileType && d.size == c.size && d.mtime == c.mtime
    && d.digest == c.digest && d.matched == c.matched && d.lastSeen == c.lastSeen && d.observed == c.observed
  }

  predicate Agrees(t: Tables, s: Pair) {
    AsRead(t, s.m, s.mFile, s.mPlace, s.mCopy) && AsRead(t, s.q, s.qFile, s.qPlace, s.qCopy)
  }

  /** Rows we have written are locked: nobody else changes them underneath. */
  predicate Locked(k: nat, t: Tables, s: Pair) {
    && (k >= 1 ==> FileIs(t, s.q, s.qFile))
    && (k >= 2 ==> PlaceIs(t, s.q, s.qPlace))
    && (k >= 3 ==> CopyIs(t, s.q, s.qCopy))
    && (k >= 4 ==> PlaceIs(t, s.m, s.mPlace))
  }

  /** A third file sits at the new path. */
  predicate Intruder(t: Tables, s: Pair) {
    Taken(t.current - {s.q} - {s.m}, s.qPlace.path)
  }

  /** Others left the pair as the snapshot has it. */
  predicate Clean(k: nat, t: Tables, s: Pair) {
    Agrees(t, s) && s.q !in t.archived && (k == 4 ==> !Intruder(t, s))
  }

  predicate Passes(k: nat, t: Tables, s: Pair, at: Time) {
    Guard(k, Overlay(t, k, s, at), s, at)
  }

  lemma GuardMeansEarly(k: nat, t: Tables, s: Pair, at: Time)
    requires k < 3 && Locked(k, t, s) && s.m != s.q && s.qFile.status.Active?
    ensures Passes(k, t, s, at) <==> Clean(k, t, s)
  {
    Unfolded(t, s, at);
    if k == 2 {
      assert Closed(s.q, s.qPlace, at) in Overlay(t, k, s, at).closed;
    }
  }

  lemma GuardMeansAfterDeletion(t: Tables, s: Pair, at: Time)
    requires Locked(3, t, s) && s.m != s.q
    ensures Passes(3, t, s, at) <==> Clean(3, t, s)
  {
    Unfolded(t, s, at);
    assert Closed(s.q, s.qPlace, at) in Overlay(t, 3, s, at).closed;
  }

  lemma GuardMeansLate(k: nat, t: Tables, s: Pair, at: Time)
    requires 4 <= k < 6 && Locked(k, t, s) && s.m != s.q
    ensures Passes(k, t, s, at) <==> Clean(k, t, s)
  {
    Unfolded(t, s, at);
    var v := Overlay(t, k, s, at);
    assert Closed(s.q, s.qPlace, at) in v.closed && Closed(s.m, s.mPlace, at) in v.closed;
  }

  lemma GuardMeans(k: nat, t: Tables, s: Pair, at: Time)
    requires k < 6 && Locked(k, t, s) && s.m != s.q && s.qFile.status.Active?
    ensures Passes(k, t, s, at) <==> Clean(k, t, s)
  {
    if k < 3 {
      GuardMeansEarly(k, t, s, at);
    } else if k == 3 {
      GuardMeansAfterDeletion(t, s, at);
    } else {
      GuardMeansLate(k, t, s, at);
    }
  }

  /** What the view holds after each of our statements, in terms of what others committed. */
  lemma Unfolded(t: Tables, s: Pair, at: Time)
    ensures Overlay(t, 0, s, at) == t
    ensures Overlay(t, 1, s, at) == t.(files := t.files[s.q := FileRow(Retired, Some(at))])
    ensures Overlay(t, 2, s, at) ==
      Overlay(t, 1, s, at).(current := t.current - {s.q}, closed := t.closed + [Closed(s.q, s.qPlace, at)])
    ensures Overlay(t, 3, s, at) == Overlay(t, 2, s, at).(copies := t.copies - {s.q})
    ensures Overlay(t, 4, s, at) == Overlay(t, 3, s, at).(current := t.current - {s.q} - {s.m},
      closed := t.closed + [Closed(s.q, s.qPlace, at)] + [Closed(s.m, s.mPlace, at)])
    ensures Overlay(t, 5, s, at) ==
      Overlay(t, 4, s, at).(current := (t.current - {s.q} - {s.m})[s.m := Place(s.qPlace.path, at)])
    ensures Overlay(t, 6, s, at) == Statement(5, Overlay(t, 5, s, at), s, at)
  {
  }

  predicate NothingChanged(bases: seq<Tables>, s: Pair, from: nat)
    requires |bases| == 6
  {
    forall k | from <= k < 6 :: Clean(k, bases[k], s)
  }

  /**
   Confirmation succeeds exactly when no statement found the pair changed, the provisional file archived or
   the new path taken; otherwise it leaves exactly what others committed.
   */
  lemma {:induction false} AllOrNothing(bases: seq<Tables>, k: nat, s: Pair, at: Time)
    requires |bases| == 6 && k <= 6 && s.m != s.q && s.qFile.status.Active?
    requires forall j | 0 <= j < 6 :: Locked(j, bases[j], s)
    ensures Confirm(bases, k, s, at).Done? <==> NothingChanged(bases, s, k)
    ensures Confirm(bases, k, s, at).Done? ==> Confirm(bases, k, s, at).tables == Overlay(bases[5], 6, s, at)
    ensures Confirm(bases, k, s, at).Failed? ==> Confirm(bases, k, s, at).tables in bases
    decreases 6 - k
  {
    if k < 6 {
      GuardMeans(k, bases[k], s, at);
      AllOrNothing(bases, k + 1, s, at);
      assert NothingChanged(bases, s, k) <==> Clean(k, bases[k], s) && NothingChanged(bases, s, k + 1);
    }
  }

  // ----- what a rename does -----

  function ActiveFiles(t: Tables): set<FileId> {
    set f | f in t.files && t.files[f].status.Active?
  }

  function Renamed(t: Tables, m: FileId, q: FileId, at: Time): Tables
    requires Both(t, m, q)
  {
    Overlay(t, 6, PairOf(t, m, q), at)
  }

  lemma RenamedIs(t: Tables, m: FileId, q: FileId, at: Time)
    requires Both(t, m, q) && m != q
    ensures var t' := Renamed(t, m, q, at);
      && t'.files == t.files[q := FileRow(Retired, Some(at))]
      && t'.current == (t.current - {q})[m := Place(t.current[q].path, at)]
      && t'.closed == t.closed + [Closed(q, t.current[q], at), Closed(m, t.current[m], at)]
      && t'.copies == (t.copies - {q})[m := Merged(t.copies[m], t.copies[q], at)]
      && t'.archived == t.archived && t'.busy == t.busy
  {
    var s := PairOf(t, m, q);
    Unfolded(t, s, at);
    var t' := Renamed(t, m, q, at);
    assert t'.current == (t.current - {q} - {m})[m := Place(t.current[q].path, at)];
    assert (t.current - {q} - {m})[m := Place(t.current[q].path, at)] ==
      (t.current - {q})[m := Place(t.current[q].path, at)];
  }

  /**
   One current path per Vault path is kept, exactly the provisional file is retired, the surviving file sits
   at the new path with the present copy's fingerprint, and nothing else changes.
   */
  lemma RenameEffects(t: Tables, m: FileId, q: FileId, at: Time)
    requires OneFilePerPath(t) && Both(t, m, q) && m != q && q in ActiveFiles(t)
    ensures var t' := Renamed(t, m, q, at);
      && OneFilePerPath(t')
      && ActiveFiles(t') == ActiveFiles(t) - {q}
      && m in t'.current && t'.current[m].path == t.current[q].path
      && q !in t'.current && q !in t'.copies
      && t'.current.Keys == t.current.Keys - {q}
      && !Taken(t'.current, t.current[m].path)
      && t'.current[m].since == at && t'.files == t.files[q := FileRow(Retired, Some(at))]
      && t'.closed == t.closed + [Closed(q, t.current[q], at), Closed(m, t.current[m], at)]
      && m in t'.copies && t'.copies[m].digest == t.copies[q].digest && t'.copies[m].size == t.copies[q].size
      && t'.copies[m].mtime == t.copies[q].mtime && t'.copies[m].matched == t.copies[q].matched
      && t'.copies[m].presence == t.copies[q].presence && t'.copies[m].fileType == t.copies[q].fileType
      && t'.copies[m].observed == t.copies[q].observed
      && t'.copies[m].lastSeen == (if t.copies[q].lastSeen == None then Some(at) else t.copies[q].lastSeen)
      && t'.copies[m].hold == t.copies[m].hold && t'.copies[m].content == t.copies[m].content
      && (forall f | f != m && f != q ::
            && (f in t.current <==> f in t'.current) && (f in t.current ==> t'.current[f] == t.current[f])
            && (f in t.copies <==> f in t'.copies) && (f in t.copies ==> t'.copies[f] == t.copies[f]))
  {
    RenamedIs(t, m, q, at);
  }

  // ----- candidates are independent -----

  lemma EligibleElsewhere(t: Tables, m: FileId, q: FileId, d: Digest, at: Time, f: FileId, presence: Presence,
    e: Digest)
    requires Candidate(t, m, q, d) && e != d
    ensures Eligible(Renamed(t, m, q, at), f, presence, e) <==> Eligible(t, f, presence, e)
    ensures Eligible(t, f, presence, e) ==> f != m && f != q
    ensures Eligible(t, f, presence, e) ==> Renamed(t, m, q, at).copies[f] == t.copies[f]
  {
    RenamedIs(t, m, q, at);
  }

  /** Two different candidates have different digests, so they share no file. */
  lemma CandidatesAreDisjoint(t: Tables, m: FileId, q: FileId, d: Digest, m2: FileId, q2: FileId, d2: Digest)
    requires Candidate(t, m, q, d) && Candidate(t, m2, q2, d2)
    ensures if d == d2 then m == m2 && q == q2 else m != m2 && m != q2 && q != m2 && q != q2
  {
  }

  /** Confirming one candidate leaves every other one a candidate. */
  lemma OthersStayCandidates(t: Tables, m: FileId, q: FileId, d: Digest, at: Time, m2: FileId, q2: FileId, d2: Digest)
    requires Candidate(t, m, q, d) && Candidate(t, m2, q2, d2) && d != d2
    ensures Candidate(Renamed(t, m, q, at), m2, q2, d2)
  {
    var t' := Renamed(t, m, q, at);
    RenamedIs(t, m, q, at);
    EligibleElsewhere(t, m, q, d, at, m2, Absent, d2);
    EligibleElsewhere(t, m, q, d, at, q2, Present, d2);
    forall g | g in t'.copies && Eligible(t', g, Absent, d2) ensures g == m2 {
      EligibleElsewhere(t, m, q, d, at, g, Absent, d2);
    }
    forall g | g in t'.copies && Eligible(t', g, Present, d2) ensures g == q2 {
      EligibleElsewhere(t, m, q, d, at, g, Present, d2);
    }
  }

  // ----- the auto-rename loop -----

  datatype Match = Match(m: FileId, q: FileId, digest: Digest)

  predicate AllCandidates(t: Tables, matches: seq<Match>) {
    && (forall k | 0 <= k < |matches| :: Candidate(t, matches[k].m, matches[k].q, matches[k].digest))
    && (forall i, k :: 0 <= i < k < |matches| ==> matches[i].digest != matches[k].digest)
  }

  function RenameAll(t: Tables, matches: seq<Match>, at: Time): Tables
    requires AllCandidates(t, matches)
    decreases |matches|
  {
    if matches == [] then t
    else
      RestAreCandidates(t, matches, at);
      RenameAll(Renamed(t, matches[0].m, matches[0].q, at), matches[1..], at)
  }

  lemma RestAreCandidates(t: Tables, matches: seq<Match>, at: Time)
    requires AllCandidates(t, matches) && matches != []
    ensures AllCandidates(Renamed(t, matches[0].m, matches[0].q, at), matches[1..])
  {
    var t' := Renamed(t, matches[0].m, matches[0].q, at);
    forall k | 0 <= k < |matches[1..]|
      ensures Candidate(t', matches[1..][k].m, matches[1..][k].q, matches[1..][k].digest) {
      var other := matches[k + 1];
      assert matches[1..][k] == other;
      OthersStayCandidates(t, matches[0].m, matches[0].q, matches[0].digest, at, other.m, other.q, other.digest);
    }
  }

  lemma CandidateIsActive(t: Tables, m: FileId, q: FileId, d: Digest)
    requires Candidate(t, m, q, d)
    ensures Both(t, m, q) && m != q && q in ActiveFiles(t) && m in ActiveFiles(t)
  {
  }

  function Retirees(matches: seq<Match>): set<FileId> {
    set k | 0 <= k < |matches| :: matches[k].q
  }

  /** Renaming the whole list retires exactly the provisional files and keeps one current path per Vault path. */
  lemma {:induction false} RenameAllEffects(t: Tables, matches: seq<Match>, at: Time)
    requires OneFilePerPath(t) && AllCandidates(t, matches)
    ensures OneFilePerPath(RenameAll(t, matches, at))
    ensures ActiveFiles(RenameAll(t, matches, at)) == ActiveFiles(t) - Retirees(matches)
    decreases |matches|
  {
    if matches != [] {
      var a := matches[0];
      CandidateIsActive(t, a.m, a.q, a.digest);
      RenameEffects(t, a.m, a.q, at);
      RestAreCandidates(t, matches, at);
      RenameAllEffects(Renamed(t, a.m, a.q, at), matches[1..], at);
      assert Retirees(matches) == {a.q} + Retirees(matches[1..]) by {
        forall k | 0 <= k < |matches| ensures matches[k].q in {a.q} + Retirees(matches[1..]) {
          if k > 0 { assert matches[1..][k - 1] == matches[k]; }
        }
        forall k | 0 <= k < |matches[1..]| ensures matches[1..][k].q in Retirees(matches) {
          assert matches[1..][k] == matches[k + 1];
        }
      }
    }
  }
}
