/** The folder a free-space worker and a restart reconciliation change in place. */
module LocalFolder {
  import opened Common
  import opened CleanupNames
  import opened FreeSpace

  datatype Reconciled = Requeued | Completed | Failed(preserved: Name)

  datatype Outcome = Freed | RolledBack | Preserved(claim: Name) | Unavailable | Refused

  // ----- reconciliation as a function of the folder -----

  /** The first name, in the order visited, that the restart takes for a claim and can link. */
  function FirstUsable(fs: map<Name, Inode>, path: Name, order: seq<Name>, linkable: set<Name>): Option<Name> {
    if order == [] then None
    else if order[0] in fs && Lists(path, order[0]) && order[0] in linkable then Some(order[0])
    else FirstUsable(fs, path, order[1..], linkable)
  }

  function FirstListed(fs: map<Name, Inode>, path: Name, order: seq<Name>): Option<Name> {
    if order == [] then None
    else if order[0] in fs && Lists(path, order[0]) then Some(order[0])
    else FirstListed(fs, path, order[1..])
  }

  function FolderAfter(fs: map<Name, Inode>, path: Name, order: seq<Name>, linkable: set<Name>): map<Name, Inode> {
    var c := FirstUsable(fs, path, order, linkable);
    if path in fs || c.None? || c.value !in fs then fs else (fs - {c.value})[path := fs[c.value]]
  }

  function Verdict(fs: map<Name, Inode>, path: Name, order: seq<Name>, linkable: set<Name>): Reconciled {
    if path in fs || FirstUsable(fs, path, order, linkable).Some? then Requeued
    else if FirstListed(fs, path, order).Some? then Failed(FirstListed(fs, path, order).value)
    else Completed
  }

  ghost predicate Enumerates(order: seq<Name>, fs: map<Name, Inode>) {
    forall n :: n in order <==> n in fs
  }

  lemma {:induction false} UsableFacts(fs: map<Name, Inode>, path: Name, order: seq<Name>, linkable: set<Name>)
    ensures var c := FirstUsable(fs, path, order, linkable);
      && (c.Some? ==> c.value in order && c.value in fs && Lists(path, c.value) && c.value in linkable)
      && (c.None? ==> forall n | n in order && n in fs && n in linkable :: !Lists(path, n))
  {
    if order != [] {
      UsableFacts(fs, path, order[1..], linkable);
      assert order == [order[0]] + order[1..];
    }
  }

  lemma {:induction false} ListedFacts(fs: map<Name, Inode>, path: Name, order: seq<Name>)
    ensures var c := FirstListed(fs, path, order);
      && (c.Some? ==> c.value in order && c.value in fs && Lists(path, c.value))
      && (c.None? ==> forall n | n in order && n in fs :: !Lists(path, n))
  {
    if order != [] {
      ListedFacts(fs, path, order[1..]);
      assert order == [order[0]] + order[1..];
    }
  }

  // ----- when reconciliation keeps to its own file -----

  /** Only the path and claims of it change. */
  predicate TouchesOwnOnly(fs: map<Name, Inode>, fs': map<Name, Inode>, path: Name) {
    forall n | n in fs && n != path && !ClaimOf(n, path) :: n in fs' && fs'[n] == fs[n]
  }

  /** Every name the pattern matches here is a claim of this file. */
  predicate OwnMatchesOnly(fs: map<Name, Inode>, path: Name) {
    forall n | n in fs && Lists(path, n) :: ClaimOf(n, path)
  }

  lemma ForeignTaken(fs: map<Name, Inode>, path: Name, order: seq<Name>, c: Name)
    requires path !in fs && c in fs && Lists(path, c) && !ClaimOf(c, path) && Enumerates(order, fs)
    ensures !TouchesOwnOnly(fs, FolderAfter(fs, path, order, {c}), path)
  {
    UsableFacts(fs, path, order, {c});
    assert c in order;
    assert FirstUsable(fs, path, order, {c}) == Some(c);
  }

  /** Whichever links succeed, other files and their claims are left alone. */
  ghost predicate LeavesOthersAlone(fs: map<Name, Inode>, path: Name, order: seq<Name>) {
    forall linkable :: TouchesOwnOnly(fs, FolderAfter(fs, path, order, linkable), path)
  }

  /**
   In whatever order the folder is visited, reconciling a file leaves other files and their claims alone exactly when
   the file is there or no foreign claim matches its pattern.
   */
  lemma TouchesOwnOnlyIff(fs: map<Name, Inode>, path: Name, order: seq<Name>)
    requires Enumerates(order, fs)
    ensures LeavesOthersAlone(fs, path, order) <==> path in fs || OwnMatchesOnly(fs, path)
  {
    if path in fs || OwnMatchesOnly(fs, path) {
      forall linkable ensures TouchesOwnOnly(fs, FolderAfter(fs, path, order, linkable), path) {
        UsableFacts(fs, path, order, linkable);
      }
    } else {
      var c :| c in fs && Lists(path, c) && !ClaimOf(c, path);
      ForeignTaken(fs, path, order, c);
    }
  }

  // ----- when "completed" means that nothing is left -----

  predicate NoClaimLeft(fs: map<Name, Inode>, path: Name) {
    forall n | n in fs :: !ClaimOf(n, path)
  }

  lemma HiddenClaimSurvives(path: Name, hex: string)
    requires IsHex(hex) && !Lists(path, ClaimName(path, hex)) && path != ClaimName(path, hex)
    ensures var fs := map[ClaimName(path, hex) := 7]; var order := [ClaimName(path, hex)];
      && Enumerates(order, fs) && Verdict(fs, path, order, fs.Keys) == Completed && !NoClaimLeft(fs, path)
  {
    ClaimShape(path, hex);
    var fs := map[ClaimName(path, hex) := 7];
    var order := [ClaimName(path, hex)];
    UsableFacts(fs, path, order, fs.Keys);
    ListedFacts(fs, path, order);
  }

  ghost predicate CompletedIsClean(path: Name) {
    forall fs, order, linkable | Enumerates(order, fs) &&
      Verdict(fs, path, order, linkable) == Completed :: NoClaimLeft(fs, path)
  }

  /** The pattern built from the name finds the file's own claims: a test on the name alone. */
  predicate FindsItself(path: Name) {
    path != "" && '\n' !in path && Finds(path, path)
  }

  lemma FindsItselfIsClean(path: Name, fs: map<Name, Inode>, order: seq<Name>, linkable: set<Name>)
    requires FindsItself(path) && Enumerates(order, fs) && Verdict(fs, path, order, linkable) == Completed
    ensures NoClaimLeft(fs, path)
  {
    ListedFacts(fs, path, order);
    forall n | n in fs ensures !ClaimOf(n, path) {
      if ClaimOf(n, path) {
        ClaimRebuilt(n);
        ListsByNames(path, path, HexOf(n));
      }
    }
  }

  /**
   A completed reconciliation leaves no claim of the file behind exactly when the pattern finds the file's own claims.
   */
  lemma CompletedIsCleanIff(path: Name)
    ensures CompletedIsClean(path) <==> FindsItself(path)
  {
    if FindsItself(path) {
      forall fs, order, linkable | Enumerates(order, fs) && Verdict(fs, path, order, linkable) == Completed
        ensures NoClaimLeft(fs, path)
      {
        FindsItselfIsClean(path, fs, order, linkable);
      }
    } else {
      ListsByNames(path, path, SomeHex());
      assert |ClaimName(path, SomeHex())| == |path| + 46;
      HiddenClaimSurvives(path, SomeHex());
    }
  }

  /** Names without brackets and line feeds are clean. */
  lemma OrdinaryIsClean(path: Name)
    requires NoBracket(path) && path != "" && '\n' !in path
    ensures CompletedIsClean(path)
  {
    NoBracketListsItself(path, SomeHex());
    ListsByNames(path, path, SomeHex());
    CompletedIsCleanIff(path);
  }

  // ----- folders in which it goes wrong -----

  /**
   A crash has left `ab.txt` under its claim name, and `a*.txt` has just been freed. Reconciling `a*.txt` takes the
   claim of `ab.txt`; reconciling `ab.txt` then reports it as freed, and its bytes are at neither of its names.
   */
  lemma StarTakesAnotherFile(hex: string)
    requires IsHex(hex)
    ensures var claim := ClaimName("ab.txt", hex); var fs := map[claim := 7];
      var fs' := FolderAfter(fs, "a*.txt", [claim], {claim});
      && fs' == map["a*.txt" := 7]
      && Verdict(fs, "a*.txt", [claim], {claim}) == Requeued
      && Verdict(fs', "ab.txt", ["a*.txt"], {}) == Completed
  {
    var claim := ClaimName("ab.txt", hex);
    StarListsOthers("a", "b", ".txt", hex);
    assert "a" + "*" + ".txt" == "a*.txt" && "a" + "b" + ".txt" == "ab.txt";
    assert |claim| == 52 && |"a*.txt"| == 6;
    var fs := map[claim := 7];
    assert FirstUsable(fs, "a*.txt", [claim], {claim}) == Some(claim);
    var fs' := map["a*.txt" := 7];
    assert !Lists("ab.txt", "a*.txt");
    UsableFacts(fs', "ab.txt", ["a*.txt"], {});
    ListedFacts(fs', "ab.txt", ["a*.txt"]);
  }

  /** The same without any wildcard: `x` takes the claim of a file named `x.cleanup-y`. */
  lemma MarkTakesAnotherFile(hex: string)
    requires IsHex(hex)
    ensures var claim := ClaimName("x.cleanup-y", hex);
      FolderAfter(map[claim := 7], "x", [claim], {claim}) == map["x" := 7]
  {
    var claim := ClaimName("x.cleanup-y", hex);
    MarkedNameIsListed(hex);
    assert |claim| == 57;
    assert FirstUsable(map[claim := 7], "x", [claim], {claim}) == Some(claim);
  }

  /** A bracket hides the claim of the file itself: it is reported as freed while its bytes are under the claim. */
  lemma BracketCompletesTooEarly(a: string, c: char, b: string)
    requires Literal(a) && c != '!' && c != ']' && c != '['
    ensures !CompletedIsClean(Bracketed(a, c, b))
  {
    var path := Bracketed(a, c, b);
    BracketHidesOwn(a, c, b, SomeHex());
    ListsByNames(path, path, SomeHex());
    CompletedIsCleanIff(path);
  }

  class Folder {
    var fs: map<Name, Inode>
    const files: map<Inode, File>

    constructor (fs: map<Name, Inode>, files: map<Inode, File>)
      ensures this.fs == fs && this.files == files
    {
      this.fs, this.files := fs, files;
    }

    /**
     Links the claim back and removes the claim name. It never overwrites the path, and no inode loses
     its last name. `linkable` is false when the file system refuses the link.
     */
    method RestoreClaimed(claim: Name, path: Name, linkable: bool) returns (restored: bool)
      requires claim != path
      modifies this
      ensures fs.Values == old(fs.Values)
      ensures path in old(fs) ==> path in fs && fs[path] == old(fs)[path]
      ensures restored == (claim !in old(fs) || (linkable && path !in old(fs)))
      ensures restored ==> claim !in fs
      ensures restored && claim in old(fs) ==> fs == (old(fs) - {claim})[path := old(fs)[claim]]
      ensures !restored || claim !in old(fs) ==> fs == old(fs)
    {
      if claim !in fs {
        return true;
      }
      if !linkable || path in fs {
        return false;
      }
      var inode := fs[claim];
      fs := fs[path := inode];
      fs := fs - {claim};
      assert old(fs)[claim] == inode && fs[path] == inode;
      forall v | v in old(fs).Values ensures v in fs.Values {
        var n :| n in old(fs) && old(fs)[n] == v;
        if n != claim {
          assert fs[n] == v;
        }
      }
      return true;
    }

    /** A restart: requeue if the path or a usable match exists, fail if a match is stuck, else complete. */
    method Reconcile(path: Name, order: seq<Name>, linkable: set<Name>) returns (verdict: Reconciled)
      requires Enumerates(order, fs) && Plain(path)
      modifies this
      ensures fs == FolderAfter(old(fs), path, order, linkable) && verdict == Verdict(old(fs), path, order, linkable)
      ensures fs.Values == old(fs.Values)
      ensures verdict.Requeued? <==> path in fs
      ensures verdict.Completed? ==> forall n | n in fs :: !Lists(path, n)
      ensures verdict.Failed? ==> verdict.preserved in fs && Lists(path, verdict.preserved)
    {
      if path in fs {
        return Requeued;
      }
      UsableFacts(fs, path, order, linkable);
      ListedFacts(fs, path, order);
      var k := 0;
      while k < |order|
        invariant k <= |order| && fs == old(fs)
        invariant FirstUsable(fs, path, order[k..], linkable) == FirstUsable(fs, path, order, linkable)
      {
        assert order[k..][0] == order[k] && order[k..][1..] == order[k + 1..];
        if Lists(path, order[k]) {
          var restored := RestoreClaimed(order[k], path, order[k] in linkable);
          if restored && path in fs {
            return Requeued;
          }
        }
        k := k + 1;
      }
      assert order[k..] == [];
      var survivor := Surviving(path, order);
      verdict := if survivor.Some? then Failed(survivor.value) else Completed;
    }

    method Surviving(path: Name, order: seq<Name>) returns (survivor: Option<Name>)
      ensures survivor == FirstListed(fs, path, order)
    {
      var k := 0;
      while k < |order|
        invariant k <= |order| && FirstListed(fs, path, order[k..]) == FirstListed(fs, path, order)
      {
        assert order[k..][0] == order[k] && order[k..][1..] == order[k + 1..];
        if Lists(path, order[k]) && order[k] in fs {
          return Some(order[k]);
        }
        k := k + 1;
      }
      assert order[k..] == [];
      return None;
    }

    /**
     One release. `arrival` is a file that turned up at the path while the claim was held, `again` is the
     authorization row as the second check reads it, `owned` whether the job is still this worker's.
     Only a release confirmed for these very bytes takes an inode out of the folder.
     */
    method ProcessFreeSpace(
      path: Name, first: Grant, claim: Name, arrival: Option<Inode>, again: Grant, owned: bool)
      returns (outcome: Outcome)
      requires claim != path && claim !in fs
      requires forall n | n in fs :: fs[n] in files
      modifies this
      ensures outcome.Refused? <==> !Grants(first)
      ensures outcome.Unavailable? <==> Grants(first) && path !in old(fs)
      ensures outcome.Refused? || outcome.Unavailable? ==> fs == old(fs)
      ensures outcome.Freed? <==>
        && Grants(first) && path in old(fs) && owned && var file := files[old(fs)[path]];
        && first.localSize == file.size && first.localMtime == file.mtime && first.versionDigest == Some(file.digest)
        && Confirms(again, file) && again.version == first.version && again.located == first.located
      ensures outcome.Freed? ==>
        fs == if arrival.Some? then old(fs)[path := arrival.value] else old(fs) - {path}
      ensures outcome.RolledBack? ==> fs == old(fs) && arrival.None?
      ensures outcome.Preserved? ==>
        arrival.Some? && fs == old(fs)[path := arrival.value][claim := old(fs)[path]] && outcome.claim == claim
    {
      if !Releasable(first) {
        return Refused;
      }
      if path !in fs {
        return Unavailable;
      }
      fs := (fs - {path})[claim := fs[path]];
      if arrival.Some? {
        fs := fs[path := arrival.value];
      }
      var file := files[fs[claim]];
      if Unchanged(first, file) && owned && Rechecked(again, first, file) {
        fs := fs - {claim};
        return Freed;
      }
      var restored := RestoreClaimed(claim, path, true);
      outcome := if restored then RolledBack else Preserved(claim);
    }
  }
}
