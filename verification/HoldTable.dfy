/** Settling and confirming as the loops and updates they are. */
module HoldTable {
  import opened Common
  import opened LocalCopies
  import opened CloudHolds

  datatype Summary = Summary(identical: nat, conflicts: nat, released: nat, resolved: nat)

  function Count(s: Holds, rows: seq<FileId>, verdict: Verdict): nat
    requires forall f | f in rows :: f in s.copies && s.copies[f].hold.Some?
  {
    if rows == [] then 0
    else Count(s, rows[..|rows| - 1], verdict) + if Judge(s.copies[rows[|rows| - 1]], s.versions) == verdict then 1
      else 0
  }

  /** Open conflicts in scope that have no content behind them. */
  function CountStale(incidents: seq<Incident>, copies: map<FileId, Copy>, scope: Option<Path>): nat {
    if incidents == [] then 0
    else
      var i := incidents[|incidents| - 1];
      CountStale(incidents[..|incidents| - 1], copies, scope) + if Reviewed(i, copies, scope) == i then 0 else 1
  }

  // ----- the counters in columns -----

  predicate NewConflict(s: Holds, f: FileId) {
    && f in s.copies && s.copies[f].hold.Some? && Differs(s, f, s.copies[f].hold.value)
    && forall i | 0 <= i < |s.incidents| && s.incidents[i].version == s.copies[f].hold.value :: !s.incidents[i].open
  }

  predicate LetGo(s: Holds, f: FileId) {
    f in s.copies && s.copies[f].hold.Some? && Unprotected(s, s.copies[f].hold.value)
  }

  predicate ProvedEqual(s: Holds, f: FileId) {
    f in s.copies && s.copies[f].hold.Some? && Equals(s, f, s.copies[f].hold.value)
  }

  lemma OneMoreConflict(rows: seq<FileId>, f: FileId, s: Holds)
    requires f !in rows
    ensures |set g | g in rows + [f] && NewConflict(s, g)| ==
      |set g | g in rows && NewConflict(s, g)| + if NewConflict(s, f) then 1 else 0
  {
    var before := set g | g in rows && NewConflict(s, g);
    assert (set g | g in rows + [f] && NewConflict(s, g)) == if NewConflict(s, f) then before + {f} else before;
  }

  lemma OneMoreLetGo(rows: seq<FileId>, f: FileId, s: Holds)
    requires f !in rows
    ensures |set g | g in rows + [f] && LetGo(s, g)| ==
      |set g | g in rows && LetGo(s, g)| + if LetGo(s, f) then 1 else 0
  {
    var before := set g | g in rows && LetGo(s, g);
    assert (set g | g in rows + [f] && LetGo(s, g)) == if LetGo(s, f) then before + {f} else before;
  }

  lemma OneMoreEqual(rows: seq<FileId>, f: FileId, s: Holds)
    requires f !in rows
    ensures |set g | g in rows + [f] && ProvedEqual(s, g)| ==
      |set g | g in rows && ProvedEqual(s, g)| + if ProvedEqual(s, f) then 1 else 0
  {
    var before := set g | g in rows && ProvedEqual(s, g);
    assert (set g | g in rows + [f] && ProvedEqual(s, g)) == if ProvedEqual(s, f) then before + {f} else before;
  }

  /** Files hold versions of their own, so no other row opens the conflict of this one. */
  lemma {:induction false} OthersOpenOthers(s: Holds, rows: seq<FileId>, f: FileId)
    requires CloudHolds.Valid(s) && f !in rows && Conflicts(s, f)
    ensures HasOpen(Opened(s, rows), s.copies[f].hold.value) <==> HasOpen(s.incidents, s.copies[f].hold.value)
  {
    if rows != [] {
      var front, last := rows[..|rows| - 1], rows[|rows| - 1];
      OthersOpenOthers(s, front, f);
      var before, after, v := Opened(s, front), Opened(s, rows), s.copies[f].hold.value;
      assert last in rows && s.versions[v].file == f;
      assert Conflicts(s, last) ==> s.copies[last].hold != Some(v);
      if HasOpen(before, v) {
        var i :| 0 <= i < |before| && before[i].open && before[i].version == v;
        assert after[i] == before[i];
      }
    }
  }

  lemma RowVerdict(s: Holds, f: FileId)
    requires f in s.copies && s.copies[f].hold.Some?
    ensures NewConflict(s, f) <==> Conflicts(s, f) && !HasOpen(s.incidents, s.copies[f].hold.value)
    ensures LetGo(s, f) <==> Judge(s.copies[f], s.versions) == Release
    ensures ProvedEqual(s, f) <==> Judge(s.copies[f], s.versions) == Identical
  {
  }

  /** Every counter is the number of rows its columns say. */
  lemma {:induction false} CountersAre(s: Holds, rows: seq<FileId>)
    requires AllHeld(s, rows) && NoDuplicates(rows)
    ensures Count(s, rows, Release) == |set f | f in rows && LetGo(s, f)|
    ensures Count(s, rows, Identical) == |set f | f in rows && ProvedEqual(s, f)|
    ensures CloudHolds.Valid(s) ==> |Opened(s, rows)| - |s.incidents| == |set f | f in rows && NewConflict(s, f)|
  {
    if rows != [] {
      var front, f := rows[..|rows| - 1], rows[|rows| - 1];
      assert rows == front + [f] && f in rows && f !in front;
      assert forall g | g in front :: g in rows;
      CountersAre(s, front);
      OneMoreConflict(front, f, s);
      OneMoreLetGo(front, f, s);
      OneMoreEqual(front, f, s);
      RowVerdict(s, f);
      if CloudHolds.Valid(s) && Conflicts(s, f) { OthersOpenOthers(s, front, f); }
    } else {
      assert (set f | f in rows && LetGo(s, f)) == {} && (set f | f in rows && ProvedEqual(s, f)) == {};
      assert (set f | f in rows && NewConflict(s, f)) == {};
    }
  }

  predicate AllHeld(s: Holds, rows: seq<FileId>) {
    forall f | f in rows :: f in s.copies && s.copies[f].hold.Some? && f in s.paths
  }

  class Table {
    var paths: map<FileId, Path>
    var copies: map<FileId, Copy>
    var versions: map<VersionId, Version>
    var incidents: seq<Incident>

    constructor (s: Holds)
      ensures Here() == s
    {
      paths, copies, versions, incidents := s.paths, s.copies, s.versions, s.incidents;
    }

    ghost function Here(): Holds
      reads this
    {
      Holds(paths, copies, versions, incidents)
    }

    method OpenConflict(f: FileId, v: VersionId, path: Path) returns (raised: bool)
      modifies this`incidents
      ensures raised == !HasOpen(old(incidents), v)
      ensures incidents == if raised then old(incidents) + [Incident(f, v, path, true)] else old(incidents)
    {
      for k := 0 to |incidents|
        invariant incidents == old(incidents)
        invariant forall j | 0 <= j < k :: !(incidents[j].open && incidents[j].version == v)
      {
        if incidents[k].open && incidents[k].version == v {
          return false;
        }
      }
      incidents := incidents + [Incident(f, v, path, true)];
      return true;
    }

    /** Judges the rows read at the start one by one, then resolves the conflicts left without content. */
    method Settle(rows: seq<FileId>, scope: Option<Path>) returns (summary: Summary)
      requires Selects(Here(), rows, scope) && NoDuplicates(rows)
      modifies this`copies, this`incidents
      ensures Here() == CloudHolds.Settle(old(Here()), rows, scope)
      ensures summary.identical == |set f | f in rows && ProvedEqual(old(Here()), f)|
      ensures summary.released == |set f | f in rows && LetGo(old(Here()), f)|
      ensures CloudHolds.Valid(old(Here())) ==> summary.conflicts == |set f | f in rows && NewConflict(old(Here()), f)|
      ensures summary.resolved == CountStale(Opened(old(Here()), rows), copies, scope)
    {
      ghost var s := Here();
      assert forall f | f in rows :: InScope(s, f, scope);
      CountersAre(s, rows);
      var identical, conflicts, released := JudgeRows(rows);
      var resolved := ResolveStale(scope);
      summary := Summary(identical, conflicts, released, resolved);
    }

    method JudgeRows(rows: seq<FileId>) returns (identical: nat, conflicts: nat, released: nat)
      requires AllHeld(Here(), rows) && NoDuplicates(rows)
      modifies this`copies, this`incidents
      ensures copies == SettledCopies(old(Here()), rows) && incidents == Opened(old(Here()), rows)
      ensures identical == Count(old(Here()), rows, Identical) && released == Count(old(Here()), rows, Release)
      ensures |incidents| == |old(incidents)| + conflicts
    {
      ghost var s := Here();
      var tally := Summary(0, 0, 0, 0);
      assert SettledCopies(s, rows[..0]) == copies;
      for k := 0 to |rows|
        invariant AllHeld(s, rows[..k]) && Judged(s, rows[..k], tally)
      {
        assert rows[k] in rows;
        tally := Advance(s, rows[..k], rows[k], tally);
        assert rows[..k + 1] == rows[..k] + [rows[k]];
      }
      assert rows[..|rows|] == rows;
      return tally.identical, tally.conflicts, tally.released;
    }

    ghost predicate Judged(s: Holds, front: seq<FileId>, tally: Summary)
      requires AllHeld(s, front)
      reads this
    {
      && Here() == s.(copies := SettledCopies(s, front), incidents := Opened(s, front))
      && tally.identical == Count(s, front, Identical) && tally.released == Count(s, front, Release)
      && |incidents| == |s.incidents| + tally.conflicts
    }

    method Advance(ghost s: Holds, ghost front: seq<FileId>, f: FileId, tally: Summary) returns (tally': Summary)
      requires AllHeld(s, front) && AllHeld(s, [f]) && f !in front && Judged(s, front, tally)
      modifies this`copies, this`incidents
      ensures AllHeld(s, front + [f]) && Judged(s, front + [f], tally')
    {
      assert f in [f];
      RowStep(s, front, f);
      var identical, released, raised := JudgeRow(f);
      tally' := Summary(tally.identical + if identical then 1 else 0, tally.conflicts + if raised then 1 else 0,
                        tally.released + if released then 1 else 0, 0);
    }

    method JudgeRow(f: FileId) returns (identical: bool, released: bool, raised: bool)
      requires f in copies && copies[f].hold.Some? && f in paths
      modifies this`copies, this`incidents
      ensures copies == old(copies)[f := Settled(old(copies)[f], versions)]
      ensures identical == Judge(old(copies)[f], versions).Identical?
      ensures released == Judge(old(copies)[f], versions).Release?
      ensures raised == (Judge(old(copies)[f], versions).Conflict? &&
        !HasOpen(old(incidents), old(copies)[f].hold.value))
      ensures incidents == if raised then old(incidents) + [Incident(f, old(copies)[f].hold.value, paths[f], true)]
        else old(incidents)
    {
      identical, released, raised := false, false, false;
      var c := copies[f];
      match Judge(c, versions)
      case Release =>
        copies := copies[f := c.(hold := None)];
        released := true;
      case Wait =>
      case Identical =>
        copies := copies[f := c.(matched := c.hold, hold := None)];
        identical := true;
      case Conflict =>
        raised := OpenConflict(f, c.hold.value, paths[f]);
    }

    method ResolveStale(scope: Option<Path>) returns (resolved: nat)
      modifies this`incidents
      ensures incidents == Review(old(incidents), copies, scope)
      ensures resolved == CountStale(old(incidents), copies, scope)
    {
      ghost var before := incidents;
      resolved := 0;
      for k := 0 to |incidents|
        invariant |incidents| == |before|
        invariant resolved == CountStale(before[..k], copies, scope)
        invariant forall j | 0 <= j < k :: incidents[j] == Reviewed(before[j], copies, scope)
        invariant forall j | k <= j < |incidents| :: incidents[j] == before[j]
      {
        var i := incidents[k];
        assert before[..k + 1][..k] == before[..k];
        if i.open && (scope.Some? ==> i.path == scope.value) && !Backed(copies, i) {
          incidents := incidents[k := i.(open := false)];
          resolved := resolved + 1;
        }
      }
      assert before[..|before|] == before;
    }

    /** Releases the content behind the newest open conflict of a path; without one nothing changes. */
    method ConfirmReplacement(path: Path, rows: seq<FileId>) returns (ok: bool)
      requires CloudHolds.Valid(Here()) && Selects(Here(), rows, Some(path)) && NoDuplicates(rows)
      modifies this`copies, this`incidents
      ensures Here() == Confirmed(old(Here()), rows, path)
      ensures var t := CloudHolds.Settle(old(Here()), rows, Some(path));
        && (ok <==> exists i :: 0 <= i < |t.incidents| && t.incidents[i].open && t.incidents[i].path == path)
        && (ok ==> exists i ::
              && 0 <= i < |t.incidents| && t.incidents[i].open && t.incidents[i].path == path
              && (forall k | i < k < |t.incidents| :: !(t.incidents[k].open && t.incidents[k].path == path))
              && t.incidents[i].file in t.copies
              && copies == t.copies[t.incidents[i].file := t.copies[t.incidents[i].file].(hold := None)]
              && incidents == t.incidents[i := t.incidents[i].(open := false)])
      ensures !ok ==> Here() == old(Here())
    {
      var copies0, incidents0 := copies, incidents;
      ConfirmFindsContent(Here(), rows, path);
      var _ := Settle(rows, Some(path));
      var i := Newest(incidents, path);
      if i.None? {
        copies, incidents := copies0, incidents0;     // the exception rolls the transaction back
        return false;
      }
      var f := incidents[i.value].file;
      copies := copies[f := copies[f].(hold := None)];
      incidents := incidents[i.value := incidents[i.value].(open := false)];
      return true;
    }
  }

  lemma RowStep(s: Holds, front: seq<FileId>, f: FileId)
    requires f in s.copies && s.copies[f].hold.Some? && f !in front
    requires forall g | g in front :: g in s.copies && s.copies[g].hold.Some?
    ensures SettledCopies(s, front)[f] == s.copies[f]
    ensures SettledCopies(s, front + [f]) == SettledCopies(s, front)[f := Settled(s.copies[f], s.versions)]
    ensures Opened(s, front + [f]) ==
      if Conflicts(s, f) && f in s.paths && !HasOpen(Opened(s, front), s.copies[f].hold.value)
      then Opened(s, front) + [Incident(f, s.copies[f].hold.value, s.paths[f], true)] else Opened(s, front)
    ensures forall v: Verdict ::
      Count(s, front + [f], v) == Count(s, front, v) + if Judge(s.copies[f], s.versions) == v then 1 else 0
  {
  }
}
