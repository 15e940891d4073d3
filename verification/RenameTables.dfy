/** Listing rename candidates and confirming them, as the loops and statements they are. */
module RenameTables {
  import opened Common
  import opened LocalCopies
  import opened FileRenames

  /** The rows the listing query returns. */
  predicate Listable(t: Tables, f: FileId) {
    f in t.copies && t.copies[f].digest.Some? &&
      (Eligible(t, f, Absent, t.copies[f].digest.value) || Eligible(t, f, Present, t.copies[f].digest.value))
  }

  ghost predicate Enumerates(t: Tables, rows: seq<FileId>) {
    (forall f :: f in rows <==> Listable(t, f)) && NoDuplicates(rows)
  }

  /** The listed files of one digest and presence, in order. */
  function Those(t: Tables, rows: seq<FileId>, presence: Presence, d: Digest): seq<FileId> {
    if rows == [] then []
    else
      var front, last := Those(t, rows[..|rows| - 1], presence, d), rows[|rows| - 1];
      if Eligible(t, last, presence, d) then front + [last] else front
  }

  lemma {:induction false} ThoseAre(t: Tables, rows: seq<FileId>, presence: Presence, d: Digest)
    ensures forall f :: f in Those(t, rows, presence, d) <==> f in rows && Eligible(t, f, presence, d)
    ensures NoDuplicates(rows) ==> NoDuplicates(Those(t, rows, presence, d))
  {
    if rows != [] {
      var front, last := rows[..|rows| - 1], rows[|rows| - 1];
      ThoseAre(t, front, presence, d);
      assert rows == front + [last];
      if NoDuplicates(rows) {
        assert last !in front;
      }
    }
  }

  /** One listed file of a digest means it is the only one. */
  lemma SingleIsAlone(t: Tables, rows: seq<FileId>, presence: Presence, d: Digest)
    requires Enumerates(t, rows) && !presence.Unsupported?
    ensures |Those(t, rows, presence, d)| == 1 ==> Alone(t, Those(t, rows, presence, d)[0], presence, d)
    ensures forall f: FileId | Alone(t, f, presence, d) :: Those(t, rows, presence, d) == [f]
  {
    var those := Those(t, rows, presence, d);
    ThoseAre(t, rows, presence, d);
    forall f: FileId | Eligible(t, f, presence, d) ensures f in those {
      assert Listable(t, f);
    }
    if |those| == 1 {
      assert those[0] in those;
    }
    forall f: FileId | Alone(t, f, presence, d) ensures those == [f] {
      assert f in those;
      assert forall k | 0 <= k < |those| :: those[k] in those;
      assert forall k | 0 <= k < |those| :: those[k] == f;
      assert those[0] == those[|those| - 1] == f;
    }
  }

  // ----- candidates in columns -----

  /** An active file at a current path, with a regular copy of that digest that no hold protects. */
  predicate HasDigest(t: Tables, f: FileId, presence: Presence, d: Digest) {
    && f in t.files && t.files[f].status == Active && f in t.current && f in t.copies
    && t.copies[f].fileType == Regular && t.copies[f].presence == presence && t.copies[f].digest == Some(d)
    && t.copies[f].hold == None
  }

  /**
   `m` is the only missing and `q` the only present file of the digest; they were observed within an hour of each
   other, `q` has nothing archived, and no job works on either.
   */
  predicate IsPair(t: Tables, m: FileId, q: FileId, d: Digest) {
    && HasDigest(t, m, Absent, d) && (forall f | f in t.copies && HasDigest(t, f, Absent, d) :: f == m)
    && HasDigest(t, q, Present, d) && (forall f | f in t.copies && HasDigest(t, f, Present, d) :: f == q)
    && t.copies[m].observed <= t.copies[q].observed + 3600 && t.copies[q].observed <= t.copies[m].observed + 3600
    && q !in t.archived && q !in t.busy && m !in t.busy
  }

  lemma CandidateInColumns(t: Tables, m: FileId, q: FileId, d: Digest)
    ensures Candidate(t, m, q, d) <==> IsPair(t, m, q, d)
  {
    assert forall f, p :: Eligible(t, f, p, d) <==> HasDigest(t, f, p, d);
  }

  lemma CandidatesInColumns(t: Tables)
    ensures forall m, q, d :: Candidate(t, m, q, d) <==> IsPair(t, m, q, d)
  {
    forall m, q, d ensures Candidate(t, m, q, d) <==> IsPair(t, m, q, d) {
      CandidateInColumns(t, m, q, d);
    }
  }

  class Renames {
    var t: Tables

    constructor (t: Tables)
      ensures this.t == t
    {
      this.t := t;
    }

    /** Groups the listed rows by digest and keeps the unambiguous, recent and free pairs. */
    method ListCandidates(rows: seq<FileId>) returns (matches: seq<Match>)
      requires Enumerates(t, rows)
      ensures AllCandidates(t, matches)
      ensures forall m, q, d :: Match(m, q, d) in matches <==> IsPair(t, m, q, d)
    {
      CandidatesInColumns(t);
      matches := ListAll(rows);
      forall m, q, d | Match(m, q, d) in matches ensures IsPair(t, m, q, d) {
        var k :| 0 <= k < |matches| && matches[k] == Match(m, q, d);
      }
    }

    method ListAll(rows: seq<FileId>) returns (matches: seq<Match>)
      requires Enumerates(t, rows)
      ensures AllCandidates(t, matches)
      ensures forall m, q, d | Candidate(t, m, q, d) :: Match(m, q, d) in matches
    {
      matches := [];
      for k := 0 to |rows|
        invariant AllCandidates(t, matches)
        invariant forall x | x in matches :: x.m in rows[..k]
        invariant forall m, q, d | Candidate(t, m, q, d) && m in rows[..k] :: Match(m, q, d) in matches
      {
        var m := rows[k];
        assert m in rows;
        assert m !in rows[..k];
        var found := Consider(rows, m);
        if found.Some? {
          Extended(t, matches, found.value);
          matches := matches + [found.value];
        }
      }
      forall m, q, d | Candidate(t, m, q, d) ensures Match(m, q, d) in matches {
        assert Listable(t, m);
        assert rows[..|rows|] == rows;
      }
    }

    /** The candidate a listed row belongs to as its missing side, if any. */
    method Consider(rows: seq<FileId>, m: FileId) returns (found: Option<Match>)
      requires Enumerates(t, rows) && m in rows
      ensures found.Some? ==> found.value.m == m && Candidate(t, m, found.value.q, found.value.digest)
      ensures forall q, d | Candidate(t, m, q, d) :: found == Some(Match(m, q, d))
    {
      var d := t.copies[m].digest.value;
      found := None;
      if !t.copies[m].presence.Absent? {
        return;
      }
      var missing := Group(rows, Absent, d);
      var present := Group(rows, Present, d);
      SingleIsAlone(t, rows, Absent, d);
      SingleIsAlone(t, rows, Present, d);
      ThoseAre(t, rows, Absent, d);
      assert m in missing;
      if |missing| == 1 && |present| == 1 {
        var q := present[0];
        if WithinWindow(t.copies[m].observed, t.copies[q].observed) && q !in t.archived && q !in t.busy &&
          m !in t.busy {
          found := Some(Match(m, q, d));
        }
      }
    }

    method Group(rows: seq<FileId>, presence: Presence, d: Digest) returns (those: seq<FileId>)
      ensures those == Those(t, rows, presence, d)
    {
      those := [];
      for k := 0 to |rows|
        invariant those == Those(t, rows[..k], presence, d)
      {
        assert rows[..k + 1][..k] == rows[..k];
        if Eligible(t, rows[k], presence, d) {
          those := those + [rows[k]];
        }
      }
      assert rows[..|rows|] == rows;
    }

    /**
     The six conditional statements under a savepoint. `others[k]` is what everyone else has committed when
     statement `k` runs; the rows this transaction has written are locked against them.
     */
    method ConfirmRename(m: FileId, q: FileId, d: Digest, at: Time, others: seq<Tables>) returns (ok: bool)
      requires |others| == 6
      requires Candidate(t, m, q, d) ==> Both(t, m, q) && forall k | 0 <= k < 6 :: Locked(k, others[k], PairOf(t, m, q))
      modifies this
      ensures ok ==> IsPair(old(t), m, q, d)
      ensures IsPair(old(t), m, q, d) ==>
        Both(old(t), m, q) && (ok <==> NothingChanged(others, PairOf(old(t), m, q), 0))
      ensures ok ==> t == Overlay(others[5], 6, PairOf(old(t), m, q), at)
      ensures !ok ==> t == old(t) || t in others
    {
      CandidateInColumns(t, m, q, d);
      if !Candidate(t, m, q, d) {
        return false;
      }
      CandidateIsActive(t, m, q, d);
      var s := PairOf(t, m, q);
      AllOrNothing(others, 0, s, at);
      var view := others[0];
      var k := 0;
      while k < 6
        invariant k <= 6 && t == old(t)
        invariant k > 0 ==> view == Overlay(others[k - 1], k, s, at)
        invariant Confirm(others, k, s, at) == Confirm(others, 0, s, at)
      {
        view := Overlay(others[k], k, s, at);
        if !Guard(k, view, s, at) {
          t := others[k];
          return false;
        }
        view := Statement(k, view, s, at);
        k := k + 1;
      }
      t := view;
      return true;
    }

    method ConfirmQuietly(x: Match, at: Time)
      requires OneFilePerPath(t) && Candidate(t, x.m, x.q, x.digest)
      modifies this
      ensures Both(old(t), x.m, x.q) && t == Renamed(old(t), x.m, x.q, at) && OneFilePerPath(t)
    {
      Undisturbed(t, x);
      RenameEffects(t, x.m, x.q, at);
      CandidateInColumns(t, x.m, x.q, x.digest);
      var ok := ConfirmRename(x.m, x.q, x.digest, at, [t, t, t, t, t, t]);
      assert ok;
    }

    /** Confirms every candidate that was listed at the start; none of them fails on the way. */
    method AutoRename(rows: seq<FileId>, at: Time) returns (confirmed: seq<Match>)
      requires OneFilePerPath(t) && Enumerates(t, rows)
      modifies this
      ensures AllCandidates(old(t), confirmed) && t == RenameAll(old(t), confirmed, at) && OneFilePerPath(t)
      ensures forall m, q, d | IsPair(old(t), m, q, d) :: Match(m, q, d) in confirmed
    {
      confirmed := ListCandidates(rows);
      ghost var start := t;
      var k := 0;
      while k < |confirmed|
        invariant k <= |confirmed| && OneFilePerPath(t)
        invariant AllCandidates(t, confirmed[k..]) &&
          RenameAll(t, confirmed[k..], at) == RenameAll(start, confirmed, at)
      {
        var x := confirmed[k];
        assert confirmed[k..][0] == x && confirmed[k..][1..] == confirmed[k + 1..];
        RestAreCandidates(t, confirmed[k..], at);
        ConfirmQuietly(x, at);
        k := k + 1;
      }
      assert confirmed[k..] == [];
    }
  }

  lemma Extended(t: Tables, matches: seq<Match>, x: Match)
    requires AllCandidates(t, matches) && Candidate(t, x.m, x.q, x.digest) && forall y | y in matches :: y.m != x.m
    ensures AllCandidates(t, matches + [x])
  {
  }

  /** With nobody else writing, a candidate's snapshot stays true throughout. */
  lemma Undisturbed(t: Tables, x: Match)
    requires OneFilePerPath(t) && Candidate(t, x.m, x.q, x.digest)
    ensures Both(t, x.m, x.q) && x.m != x.q && x.q in ActiveFiles(t)
    ensures forall k: nat :: Locked(k, t, PairOf(t, x.m, x.q)) && Clean(k, t, PairOf(t, x.m, x.q))
  {
  }
}
