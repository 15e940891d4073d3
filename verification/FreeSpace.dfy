/**
 Freeing local space in one folder: a worker renames a file to a claim name of its own, hashes it again, confirms the
 archived version under the Vault lock and unlinks; anything else links the claim back. Jobs for several files,
 restarts and crashes interleave freely with a catalog that changes and with an Owner who creates, replaces and deletes
 files. A restart takes for a file's claims whatever the pattern built from the file's name matches.
 */
module FreeSpace {
  import opened Common
  import opened CleanupNames

  type Inode = nat
  type ActorId = nat

  datatype File = File(digest: nat, size: nat, mtime: nat)

  /** The joined row that authorizes a release, as the catalog has it now. */
  datatype Grant = Grant(
    confirmed: bool,                 // local and cloud protection of the Vault is confirmed
    automatic: bool,
    due: bool,                       // the Owner's policy still asks for this automatic release
    present: bool,
    regular: bool,
    verified: bool,
    available: bool,
    version: Option<nat>,
    matched: Option<nat>,
    latest: Option<nat>,
    localDigest: Option<nat>,
    versionDigest: Option<nat>,
    held: Option<nat>,               // cloud-only hold
    located: Option<nat>,            // object key and VersionId
    cloudSize: nat,
    localSize: nat,
    localMtime: nat)

  /** `_checked_local_release_target` accepts. */
  predicate Releasable(t: Grant) {
    && t.confirmed
    && (t.automatic ==> t.due)
    && t.present && t.regular && t.verified && t.available
    && t.matched == t.version
    && t.localDigest.Some? && t.localDigest == t.versionDigest
    && t.held.None?
    && t.version == t.latest
    && t.located.Some?
  }

  /** The second check still names the version of the first one, and it describes the hashed bytes. */
  predicate Rechecked(again: Grant, first: Grant, file: File) {
    && Releasable(again)
    && again.version == first.version
    && again.located == first.located
    && again.cloudSize == file.size
    && again.versionDigest == Some(file.digest)
    && again.localSize == file.size
    && again.localMtime == file.mtime
  }

  predicate Unchanged(first: Grant, file: File) {
    file.size == first.localSize && file.mtime == first.localMtime && first.versionDigest == Some(file.digest)
  }

  /** A name that is not built like a claim: the Owner's files. */
  predicate Plain(n: Name) {
    !IsClaim(n)
  }

  predicate ClaimOf(n: Name, path: Name) {
    IsClaim(n) && OwnerOf(n) == path
  }

  datatype Phase =
    | Checked(path: Name, first: Grant)
    | Claimed(path: Name, claim: Name, first: Grant)
    | Hashed(path: Name, claim: Name, first: Grant)
    | Restoring(path: Name, claim: Name)
    | Linked(path: Name, claim: Name)  // linked back to the path, the claim name still to be removed

  datatype State = State(
    jobs: set<Name>,                   // the files free-space jobs work on
    fs: map<Name, Inode>,
    files: map<Inode, File>,           // content of every inode; replaced, never rewritten
    origin: map<Inode, Name>,          // where its Owner put it
    catalog: map<Name, Grant>,
    actors: map<ActorId, Phase>,
    used: set<Name>,                   // claim names ever taken
    claimed: set<Inode>,               // ever renamed to a claim
    released: set<Inode>,              // unlinked under the Vault lock since it last got a name
    discarded: set<Inode>)             // removed from its path by someone else since it last got a name

  datatype Step =
    | Check(w: ActorId, path: Name)
    | Rename(w: ActorId, claim: Name)
    | Rehash(w: ActorId)
    | Release(w: ActorId, owned: bool)
    | Fail(w: ActorId)                 // any exception while the claim is held
    | Adopt(w: ActorId, path: Name, claim: Name) // a restart takes a name on disk for a claim of the file
    | Link(w: ActorId)
    | Unclaim(w: ActorId)
    | Crash(w: ActorId)
    | Observe(path: Name, row: Grant) // any catalog change by anyone else
    | Create(path: Name, inode: Inode, file: File) // the Owner puts a file there, replacing what is there
    | Delete(path: Name)               // the Owner removes a file

  predicate Enabled(s: State, step: Step) {
    match step
    case Check(w, p) => w !in s.actors && p in s.jobs && p in s.catalog && Releasable(s.catalog[p])
    case Rename(w, c) =>
      w in s.actors && s.actors[w].Checked? && s.actors[w].path in s.fs && ClaimOf(c, s.actors[w].path) && c !in s.used
    case Rehash(w) => w in s.actors && s.actors[w].Claimed?
    case Release(w, _) => w in s.actors && s.actors[w].Hashed?
    case Fail(w) => w in s.actors && (s.actors[w].Claimed? || s.actors[w].Hashed?)
    case Adopt(w, p, c) => w !in s.actors && p in s.jobs && p !in s.fs && c in s.fs && Lists(p, c)
    case Link(w) => w in s.actors && s.actors[w].Restoring?
    case Unclaim(w) => w in s.actors && s.actors[w].Linked?
    case Crash(w) => w in s.actors
    case Observe(_, _) => true
    case Create(p, i, _) => Plain(p) && i !in s.files
    case Delete(p) => Plain(p) && p in s.fs
  }

  predicate CanRelease(s: State, step: Step)
    requires Enabled(s, step) && step.Release?
  {
    var p := s.actors[step.w];
    && step.owned && p.claim in s.fs && s.fs[p.claim] in s.files && p.path in s.catalog
    && Rechecked(s.catalog[p.path], p.first, s.files[s.fs[p.claim]])
  }

  predicate StillSame(s: State, p: Phase)
    requires p.Claimed?
  {
    p.claim in s.fs && s.fs[p.claim] in s.files && Unchanged(p.first, s.files[s.fs[p.claim]])
  }

  /** The inode gets a name: what happened to it before no longer counts. */
  function Named(s: State, i: Inode): State {
    s.(released := s.released - {i}, discarded := s.discarded - {i})
  }

  function Apply(s: State, step: Step): State
    requires Enabled(s, step)
  {
    match step
    case Check(w, p) => s.(actors := s.actors[w := Checked(p, s.catalog[p])])
    case Rename(w, c) =>
      var p := s.actors[w].path;
      Named(s, s.fs[p]).(fs := (s.fs - {p})[c := s.fs[p]], actors := s.actors[w := Claimed(p, c, s.actors[w].first)],
                         used := s.used + {c}, claimed := s.claimed + {s.fs[p]})
    case Rehash(w) =>
      var p := s.actors[w];
      s.(actors := s.actors[w := if StillSame(s, p) then Hashed(p.path, p.claim, p.first)
        else Restoring(p.path, p.claim)])
    case Release(w, _) =>
      var p := s.actors[w];
      if CanRelease(s, step) then
        s.(fs := s.fs - {p.claim}, actors := s.actors - {w}, released := s.released + {s.fs[p.claim]})
      else
        s.(actors := s.actors[w := Restoring(p.path, p.claim)])
    case Fail(w) => s.(actors := s.actors[w := Restoring(s.actors[w].path, s.actors[w].claim)])
    case Adopt(w, p, c) => s.(actors := s.actors[w := Restoring(p, c)])
    case Link(w) =>
      var p := s.actors[w];
      if p.claim in s.fs && p.path !in s.fs then
        Named(s, s.fs[p.claim]).(fs := s.fs[p.path := s.fs[p.claim]], actors := s.actors[w := Linked(p.path, p.claim)])
      else
        s.(actors := s.actors - {w})
    case Unclaim(w) => s.(fs := s.fs - {s.actors[w].claim}, actors := s.actors - {w})
    case Crash(w) => s.(actors := s.actors - {w})
    case Observe(p, t) => s.(catalog := s.catalog[p := t])
    case Create(p, i, f) =>
      s.(fs := s.fs[p := i], files := s.files[i := f], origin := s.origin[i := p],
         discarded := s.discarded + if p in s.fs then {s.fs[p]} else {})
    case Delete(p) => s.(fs := s.fs - {p}, discarded := s.discarded + {s.fs[p]})
  }

  predicate Init(s: State) {
    && s.actors == map[] && s.used == {} && s.claimed == {} && s.released == {} && s.discarded == {}
    && (forall p | p in s.jobs :: Plain(p))
    && forall n | n in s.fs :: Plain(n) && s.fs[n] in s.files && s.fs[n] in s.origin && s.origin[s.fs[n]] == n
  }

  /** No job's pattern matches the claim of another job's file. */
  ghost predicate Separate(jobs: set<Name>) {
    forall p, c | p in jobs && Lists(p, c) && OwnerOf(c) in jobs :: OwnerOf(c) == p
  }

  ghost predicate Stepped(s: State, step: Step, s': State) {
    Enabled(s, step) && s' == Apply(s, step)
  }

  ghost predicate Next(s: State, s': State) {
    exists step :: Stepped(s, step, s')
  }

  ghost predicate StepAt(run: seq<State>, k: nat)
    requires k + 1 < |run|
  {
    Next(run[k], run[k + 1])
  }

  ghost predicate IsRun(run: seq<State>) {
    run != [] && Init(run[0]) && forall k: nat | k + 1 < |run| :: StepAt(run, k)
  }

  /** The rehash lets a worker go on exactly if the claimed bytes are those of the first check. */
  lemma RehashDecides(s: State, w: ActorId, s': State)
    requires Stepped(s, Rehash(w), s')
    ensures var p := s.actors[w];
      s'.actors[w].Hashed? <==>
        && p.claim in s.fs && s.fs[p.claim] in s.files && var file := s.files[s.fs[p.claim]];
        && p.first.localSize == file.size && p.first.localMtime == file.mtime
        && p.first.versionDigest == Some(file.digest)
  {
  }

  // ----- the invariant -----

  predicate LinkedBy(s: State, w: ActorId, n: Name) {
    w in s.actors && s.actors[w].Linked? && s.actors[w].claim == n
  }

  /** A name that no one is about to remove holds the inode. */
  ghost predicate Kept(s: State, i: Inode, n: Name) {
    n in s.fs && s.fs[n] == i && (Plain(n) || forall w :: !LinkedBy(s, w, n))
  }

  ghost predicate Home(s: State, i: Inode) {
    i in s.released || i in s.discarded || exists n :: Kept(s, i, n)
  }

  /** Every name belongs to the place its inode came from: the path itself, or a claim of it. */
  predicate NameOk(s: State, n: Name) {
    && n in s.fs && s.fs[n] in s.files && s.fs[n] in s.origin
    && (if Plain(n) then s.origin[s.fs[n]] == n
        else ClaimOf(n, s.origin[s.fs[n]]) && n in s.used && s.origin[s.fs[n]] in s.jobs)
  }

  predicate ActorOk(s: State, w: ActorId) {
    && w in s.actors && s.actors[w].path in s.jobs
    && (!s.actors[w].Checked? ==> s.actors[w].claim in s.used && ClaimOf(s.actors[w].claim, s.actors[w].path))
  }

  ghost predicate Inv(s: State) {
    && Separate(s.jobs) && (forall p | p in s.jobs :: Plain(p))
    && (forall n | n in s.fs :: NameOk(s, n))
    && (forall w | w in s.actors :: ActorOk(s, w))
    && (forall n | n in s.used :: !Plain(n))
    && (forall i | i in s.claimed :: i in s.origin && i in s.files && Home(s, i))
  }

  /** With separate patterns, a restart only adopts claims of its own file. */
  lemma AdoptsOwn(s: State, path: Name, claim: Name)
    requires Inv(s) && path in s.jobs && claim in s.fs && Lists(path, claim)
    ensures ClaimOf(claim, path) && claim in s.used
  {
    assert NameOk(s, claim);
  }

  lemma NameKept(s: State, step: Step, s': State, n: Name)
    requires Stepped(s, step, s') && Inv(s) && n in s'.fs
    ensures NameOk(s', n)
  {
    if step.Rename? || step.Link? {
      MovedNameKept(s, step, s', n);
    } else if n in s.fs {
      assert NameOk(s, n);
    }
  }

  lemma MovedNameKept(s: State, step: Step, s': State, n: Name)
    requires Stepped(s, step, s') && Inv(s) && n in s'.fs && (step.Rename? || step.Link?)
    ensures NameOk(s', n)
  {
    assert ActorOk(s, step.w);
    if n in s.fs { assert NameOk(s, n); }
    if step.Rename? {
      assert NameOk(s, s.actors[step.w].path);
    } else if s.actors[step.w].claim in s.fs {
      assert NameOk(s, s.actors[step.w].claim);
    }
  }

  lemma NamesKept(s: State, step: Step, s': State)
    requires Stepped(s, step, s') && Inv(s)
    ensures forall n | n in s'.fs :: NameOk(s', n)
  {
    forall n | n in s'.fs ensures NameOk(s', n) {
      NameKept(s, step, s', n);
    }
  }

  lemma ActorsKept(s: State, step: Step, s': State)
    requires Stepped(s, step, s') && Inv(s)
    ensures forall w | w in s'.actors :: ActorOk(s', w)
  {
    forall w | w in s'.actors ensures ActorOk(s', w) {
      ActorKept(s, step, s', w);
    }
  }

  lemma ActorKept(s: State, step: Step, s': State, w: ActorId)
    requires Stepped(s, step, s') && Inv(s) && w in s'.actors
    ensures ActorOk(s', w)
  {
    if w in s.actors { assert ActorOk(s, w); }
    if step.Adopt? { AdoptsOwn(s, step.path, step.claim); }
  }

  lemma LinkersKept(s: State, step: Step, s': State, w: ActorId, n: Name)
    requires Stepped(s, step, s') && LinkedBy(s', w, n)
    ensures LinkedBy(s, w, n) || (step == Link(w) && s'.fs != s.fs && s.actors[w].claim == n)
  {
  }

  /** A name that is neither renamed away, released, linked from nor removed stays as good as it was. */
  lemma NameStays(s: State, step: Step, s': State, i: Inode, n: Name)
    requires Stepped(s, step, s') && Kept(s, i, n) && n in s'.fs && s'.fs[n] == i
    requires step.Link? ==> s'.fs == s.fs || s.actors[step.w].claim != n
    ensures Kept(s', i, n)
  {
    forall w | LinkedBy(s', w, n) ensures LinkedBy(s, w, n) {
      LinkersKept(s, step, s', w, n);
    }
  }

  lemma HomeKept(s: State, step: Step, s': State, i: Inode, n: Name)
    requires Stepped(s, step, s') && Inv(s) && Kept(s, i, n)
    requires !(step.Rename? && i == s.fs[s.actors[step.w].path])
    requires !(step.Link? && s'.fs != s.fs && i == s.fs[s.actors[step.w].claim])
    ensures Home(s', i)
  {
    if step.Unclaim? {
      assert LinkedBy(s, step.w, s.actors[step.w].claim) && ActorOk(s, step.w);
    }
    if i !in s'.released && i !in s'.discarded {
      NameStays(s, step, s', i, n);
    }
  }

  /** An inode that gets a name in this step keeps it. */
  lemma NewlyNamed(s: State, step: Step, s': State, i: Inode)
    requires Stepped(s, step, s') && Inv(s)
    requires (step.Rename? && i == s.fs[s.actors[step.w].path])
          || (step.Link? && s'.fs != s.fs && i == s.fs[s.actors[step.w].claim])
    ensures Home(s', i)
  {
    if step.Rename? {
      forall v ensures !LinkedBy(s', v, step.claim) { if v in s.actors { assert ActorOk(s, v); } }
      assert Kept(s', i, step.claim);
    } else {
      assert ActorOk(s, step.w);
      assert Kept(s', i, s.actors[step.w].path);
    }
  }

  lemma HomesKept(s: State, step: Step, s': State, i: Inode)
    requires Stepped(s, step, s') && Inv(s) && i in s'.claimed
    ensures i in s'.origin && i in s'.files && Home(s', i)
  {
    if step.Rename? { assert ActorOk(s, step.w) && NameOk(s, s.actors[step.w].path); }
    if step.Rename? && i == s.fs[s.actors[step.w].path] {
      NewlyNamed(s, step, s', i);
    } else if step.Link? && s'.fs != s.fs && i == s.fs[s.actors[step.w].claim] {
      NewlyNamed(s, step, s', i);
    } else if i !in s.released && i !in s.discarded {
      var n :| Kept(s, i, n);
      HomeKept(s, step, s', i, n);
    }
  }

  lemma InvStep(s: State, step: Step, s': State)
    requires Stepped(s, step, s') && Inv(s)
    ensures Inv(s')
  {
    NamesKept(s, step, s');
    ActorsKept(s, step, s');
    forall i | i in s'.claimed ensures i in s'.origin && i in s'.files && Home(s', i) {
      HomesKept(s, step, s', i);
    }
  }

  lemma InvNext(s: State, s': State)
    requires Next(s, s') && Inv(s)
    ensures Inv(s')
  {
    var step :| Stepped(s, step, s');
    InvStep(s, step, s');
  }

  lemma InvInit(s: State)
    requires Init(s) && Separate(s.jobs)
    ensures Inv(s)
  {
  }

  lemma {:induction false} InvOverRuns(run: seq<State>, k: nat)
    requires IsRun(run) && Separate(run[0].jobs) && k < |run|
    ensures Inv(run[k])
  {
    if k == 0 {
      InvInit(run[0]);
    } else {
      InvOverRuns(run, k - 1);
      assert StepAt(run, k - 1);
      InvNext(run[k - 1], run[k]);
    }
  }

  // ----- what happened to a claimed file -----

  /** The archived version vouches for exactly these bytes, and everything else still allows the release. */
  predicate Confirms(t: Grant, file: File) {
    && Grants(t) && t.versionDigest == Some(file.digest)
    && t.cloudSize == file.size && t.localSize == file.size && t.localMtime == file.mtime
  }

  /** The row lets a file go: a settled local copy of the newest version, which is verified, available and located. */
  predicate Grants(t: Grant) {
    && t.confirmed && (!t.automatic || t.due) && t.present && t.regular && t.verified && t.available
    && t.version == t.matched == t.latest && t.localDigest == t.versionDigest != None && t.held == None
    && t.located != None
  }

  /** The inode gets a name it did not have. */
  ghost predicate NamedAt(run: seq<State>, u: nat, i: Inode) {
    && u + 1 < |run|
    && exists n :: n in run[u + 1].fs && run[u + 1].fs[n] == i && !(n in run[u].fs && run[u].fs[n] == i)
  }

  /** The worker unlinks the inode in the release step of its job, holding a claim of the path it came from. */
  ghost predicate Releases(s: State, w: ActorId, s': State, i: Inode) {
    && Stepped(s, Release(w, true), s') && CanRelease(s, Release(w, true))
    && s.fs[s.actors[w].claim] == i
    && i in s.origin && s.actors[w].path == s.origin[i] && ClaimOf(s.actors[w].claim, s.origin[i])
  }

  ghost predicate ReleasedIn(s: State, s': State, i: Inode) {
    exists w :: Releases(s, w, s', i)
  }

  /** Released by a step of its job's worker, with the catalog confirming the version of its path for these bytes. */
  ghost predicate ReleasedAt(run: seq<State>, t: nat, i: Inode) {
    && t + 1 < |run| && i in run[t].files && i in run[t].origin
    && run[t].origin[i] in run[t].catalog && Confirms(run[t].catalog[run[t].origin[i]], run[t].files[i])
    && ReleasedIn(run[t], run[t + 1], i)
  }

  /** The Owner removes the inode from its own path, or puts another file there. */
  ghost predicate Removes(s: State, step: Step, s': State, i: Inode) {
    && Stepped(s, step, s') && (step.Create? || step.Delete?)
    && i in s.origin && s.origin[i] == step.path && step.path in s.fs && s.fs[step.path] == i
  }

  ghost predicate RemovedIn(s: State, s': State, i: Inode) {
    exists step :: Removes(s, step, s', i)
  }

  ghost predicate DiscardedAt(run: seq<State>, t: nat, i: Inode) {
    t + 1 < |run| && RemovedIn(run[t], run[t + 1], i)
  }

  ghost predicate Since(run: seq<State>, t: nat, k: nat, i: Inode) {
    forall u: nat | t < u < k :: !NamedAt(run, u, i)
  }

  ghost predicate GoneAt(run: seq<State>, t: nat, i: Inode) {
    ReleasedAt(run, t, i) || DiscardedAt(run, t, i)
  }

  /** The last thing that happened to the inode, before `k`, was a confirmed release or its Owner's removal. */
  ghost predicate Accounted(run: seq<State>, k: nat, i: Inode) {
    exists t: nat :: t < k && GoneAt(run, t, i) && Since(run, t, k, i)
  }

  /** Released inodes leave a claim of their own path, discarded ones their path itself. */
  lemma NewlyGone(run: seq<State>, t: nat, i: Inode)
    requires t + 1 < |run| && Next(run[t], run[t + 1]) && Inv(run[t])
    ensures i in run[t + 1].released && i !in run[t].released ==> ReleasedAt(run, t, i)
    ensures i in run[t + 1].discarded && i !in run[t].discarded ==> DiscardedAt(run, t, i)
  {
    var step :| Stepped(run[t], step, run[t + 1]);
    if step.Release? {
      assert ActorOk(run[t], step.w);
      if CanRelease(run[t], step) {
        assert NameOk(run[t], run[t].actors[step.w].claim) && step == Release(step.w, true);
        assert Releases(run[t], step.w, run[t + 1], run[t].fs[run[t].actors[step.w].claim]);
      }
    } else if (step.Create? || step.Delete?) && step.path in run[t].fs {
      assert NameOk(run[t], step.path);
      assert Removes(run[t], step, run[t + 1], run[t].fs[step.path]);
    }
  }

  /** A known inode that gets a name is no longer counted as gone. */
  lemma NamedIsBack(s: State, step: Step, s': State, i: Inode, n: Name)
    requires Stepped(s, step, s') && i in s.files
    requires n in s'.fs && s'.fs[n] == i && !(n in s.fs && s.fs[n] == i)
    ensures i !in s'.released && i !in s'.discarded
  {
    assert step.Rename? || step.Link?;
  }

  lemma FreshlyClaimed(s: State, step: Step, s': State, i: Inode)
    requires Stepped(s, step, s') && i in s'.claimed && i !in s.claimed
    ensures i !in s'.released && i !in s'.discarded
  {
    assert step.Rename?;
  }

  /** What counts as gone now counted before, or has just gone; and it has not got a name since. */
  lemma StillGone(run: seq<State>, k: nat, i: Inode)
    requires k + 1 < |run| && Next(run[k], run[k + 1]) && Inv(run[k])
    requires i in run[k + 1].claimed && (i in run[k + 1].released || i in run[k + 1].discarded)
    ensures i in run[k].claimed
    ensures !NamedAt(run, k, i)
    ensures i in run[k].released || i in run[k].discarded || GoneAt(run, k, i)
  {
    NewlyGone(run, k, i);
    var step :| Stepped(run[k], step, run[k + 1]);
    if i !in run[k].claimed {
      FreshlyClaimed(run[k], step, run[k + 1], i);
      assert false;
    }
    if n :| n in run[k + 1].fs && run[k + 1].fs[n] == i && !(n in run[k].fs && run[k].fs[n] == i) {
      NamedIsBack(run[k], step, run[k + 1], i, n);
      assert false;
    }
  }

  lemma LaterStill(run: seq<State>, k: nat, i: Inode)
    requires Accounted(run, k, i) && !NamedAt(run, k, i)
    ensures Accounted(run, k + 1, i)
  {
    var t: nat :| t < k && GoneAt(run, t, i) && Since(run, t, k, i);
    SinceStill(run, t, k, i);
  }

  lemma SinceStill(run: seq<State>, t: nat, k: nat, i: Inode)
    requires Since(run, t, k, i) && !NamedAt(run, k, i)
    ensures Since(run, t, k + 1, i)
  {
  }

  lemma JustNow(run: seq<State>, k: nat, i: Inode)
    requires GoneAt(run, k, i)
    ensures Accounted(run, k + 1, i)
  {
    assert Since(run, k, k + 1, i);
  }

  lemma {:induction false} HistoryOf(run: seq<State>, k: nat, i: Inode)
    requires IsRun(run) && Separate(run[0].jobs) && k < |run|
    requires i in run[k].claimed && (i in run[k].released || i in run[k].discarded)
    ensures Accounted(run, k, i)
    decreases k
  {
    if k > 0 {
      InvOverRuns(run, k - 1);
      assert StepAt(run, k - 1);
      StillGone(run, k - 1, i);
      if GoneAt(run, k - 1, i) {
        JustNow(run, k - 1, i);
      } else {
        HistoryOf(run, k - 1, i);
        LaterStill(run, k - 1, i);
      }
    }
  }

  lemma {:induction false} OriginIsFixed(run: seq<State>, j: nat, k: nat, i: Inode)
    requires IsRun(run) && Separate(run[0].jobs) && j <= k < |run| && i in run[j].claimed
    ensures i in run[j].files && i in run[j].origin
    ensures i in run[k].claimed && i in run[k].files && run[k].files[i] == run[j].files[i]
    ensures i in run[k].origin && run[k].origin[i] == run[j].origin[i]
    decreases k
  {
    InvOverRuns(run, j);
    if j < k {
      OriginIsFixed(run, j, k - 1, i);
      assert StepAt(run, k - 1);
      OriginNext(run[k - 1], run[k], i);
    }
  }

  lemma OriginNext(s: State, s': State, i: Inode)
    requires Next(s, s') && i in s.claimed && i in s.files && i in s.origin
    ensures i in s'.claimed && i in s'.files && s'.files[i] == s.files[i] && i in s'.origin &&
      s'.origin[i] == s.origin[i]
  {
    var step :| Stepped(s, step, s');
  }

  /** The claimed inode is at its own path or at a claim of it; or it was released, or removed by its Owner. */
  ghost predicate NotLost(run: seq<State>, k: nat, i: Inode)
    requires k < |run|
  {
    && i in run[k].origin
    && var path := run[k].origin[i];
      || (exists n :: n in run[k].fs && run[k].fs[n] == i && (n == path || ClaimOf(n, path)))
      || Accounted(run, k, i)
  }

  /**
   Whatever crashes, restarts and races follow, and however many files are being freed, a file that was ever claimed
   is at its own path or at a claim name of it; or the last thing that happened to it, with no new name since, was a
   release that confirmed a verified, available version of the same digest, or its Owner's removal.
   */
  lemma OriginalNeverLost(run: seq<State>, j: nat, k: nat, i: Inode)
    requires IsRun(run) && Separate(run[0].jobs) && j <= k < |run| && i in run[j].claimed
    ensures NotLost(run, k, i)
    ensures i in run[j].origin && run[k].origin[i] == run[j].origin[i]
    ensures i in run[j].files && i in run[k].files && run[k].files[i] == run[j].files[i]
  {
    OriginIsFixed(run, j, k, i);
    InvOverRuns(run, k);
    if i in run[k].released || i in run[k].discarded {
      HistoryOf(run, k, i);
    } else {
      AtHome(run[k], i);
    }
  }

  lemma AtHome(s: State, i: Inode)
    requires Inv(s) && i in s.claimed && i !in s.released && i !in s.discarded
    ensures i in s.origin && exists n :: n in s.fs && s.fs[n] == i && (n == s.origin[i] || ClaimOf(n, s.origin[i]))
  {
    assert Home(s, i);
    var n :| Kept(s, i, n);
    assert NameOk(s, n);
  }

  /** No worker, however stale, ever writes over a file the Owner has put at a path. */
  lemma PathIsNeverOverwritten(s: State, step: Step, s': State, path: Name)
    requires Stepped(s, step, s') && Inv(s) && Plain(path) && path in s.fs && !step.Create? && !step.Delete?
    ensures path in s'.fs ==> s'.fs[path] == s.fs[path]
    ensures path !in s'.fs ==> step.Rename? && step.claim in s'.fs && s'.fs[step.claim] == s.fs[path]
  {
    if step.Unclaim? || step.Release? || step.Link? || step.Rename? { assert ActorOk(s, step.w); }
  }

  // ----- which folders are safe -----

  /** In no run over these jobs is a claimed file ever lost. */
  ghost predicate NothingLost(jobs: set<Name>) {
    forall run: seq<State>, k: nat, i |
      IsRun(run) && run[0].jobs == jobs && k < |run| && i in run[k].claimed :: NotLost(run, k, i)
  }

  const GRANT := Grant(true, false, false, true, true, true, true, Some(0), Some(0), Some(0), Some(0), Some(0), None,
    Some(0), 0, 0, 0)

  /** A folder in which `q` is about to be freed. */
  function Before(jobs: set<Name>, q: Name): State {
    State(jobs, map[q := 0], map[0 := File(0, 0, 0)], map[0 := q], map[q := GRANT], map[], {}, {}, {}, {})
  }

  /** The same folder after `q` was claimed as `c`. */
  function After(jobs: set<Name>, q: Name, c: Name, fs: map<Name, Inode>, actors: map<ActorId, Phase>): State {
    Before(jobs, q).(fs := fs, actors := actors, used := {c}, claimed := {0})
  }

  /** The worker for `q` claims it as `c` and crashes; a restart for `p` adopts the claim and links it to `p`. */
  function Wrong(jobs: set<Name>, p: Name, q: Name, c: Name): seq<State> {
    [ Before(jobs, q),
      Before(jobs, q).(actors := map[0 := Checked(q, GRANT)]),
      After(jobs, q, c, map[c := 0], map[0 := Claimed(q, c, GRANT)]),
      After(jobs, q, c, map[c := 0], map[]),
      After(jobs, q, c, map[c := 0], map[0 := Restoring(p, c)]),
      After(jobs, q, c, map[c := 0, p := 0], map[0 := Linked(p, c)]),
      After(jobs, q, c, map[p := 0], map[])]
  }

  predicate Mistaken(jobs: set<Name>, p: Name, c: Name) {
    && p in jobs && Lists(p, c) && OwnerOf(c) in jobs && OwnerOf(c) != p
    && forall n | n in jobs :: Plain(n)
  }

  lemma WrongClaim(jobs: set<Name>, p: Name, c: Name)
    requires Mistaken(jobs, p, c)
    ensures var run := Wrong(jobs, p, OwnerOf(c), c); Stepped(run[0], Check(0, OwnerOf(c)), run[1])
    ensures var run := Wrong(jobs, p, OwnerOf(c), c); Stepped(run[1], Rename(0, c), run[2])
    ensures var run := Wrong(jobs, p, OwnerOf(c), c); Stepped(run[2], Crash(0), run[3])
  {
    assert Plain(OwnerOf(c));
  }

  lemma WrongRestart(jobs: set<Name>, p: Name, q: Name, c: Name)
    requires p in jobs && Plain(p) && Lists(p, c)
    ensures var run := Wrong(jobs, p, q, c); Stepped(run[3], Adopt(0, p, c), run[4])
    ensures var run := Wrong(jobs, p, q, c); Stepped(run[4], Link(0), run[5])
    ensures var run := Wrong(jobs, p, q, c); Stepped(run[5], Unclaim(0), run[6])
  {
    assert p != c && map[c := 0, p := 0] - {c} == map[p := 0];
  }

  lemma WrongIsRun(jobs: set<Name>, p: Name, c: Name)
    requires Mistaken(jobs, p, c)
    ensures IsRun(Wrong(jobs, p, OwnerOf(c), c))
  {
    var run := Wrong(jobs, p, OwnerOf(c), c);
    WrongClaim(jobs, p, c);
    WrongRestart(jobs, p, OwnerOf(c), c);
    forall k: nat | k + 1 < |run| ensures StepAt(run, k) {
      assert k == 0 || k == 1 || k == 2 || k == 3 || k == 4 || k == 5;
    }
  }

  predicate SamePhase(s: State, s': State, w: ActorId) {
    if w in s.actors then w in s'.actors && s'.actors[w] == s.actors[w] else w !in s'.actors
  }

  lemma NeitherFate(s: State, s': State, w: ActorId, i: Inode)
    requires !SamePhase(s, s', w) && forall v | v in s.actors :: !s.actors[v].Hashed?
    ensures !ReleasedIn(s, s', i) && !RemovedIn(s, s', i)
  {
  }

  lemma WrongUnaccounted(jobs: set<Name>, p: Name, q: Name, c: Name, t: nat)
    requires t < 6
    ensures !GoneAt(Wrong(jobs, p, q, c), t, 0)
  {
    NeitherFate(Wrong(jobs, p, q, c)[t], Wrong(jobs, p, q, c)[t + 1], 0, 0);
  }

  /** A job whose pattern matches the claim of another job's file loses that file in some run. */
  lemma MistakenLoses(jobs: set<Name>, p: Name, c: Name)
    requires Mistaken(jobs, p, c)
    ensures var run := Wrong(jobs, p, OwnerOf(c), c); 0 in run[6].claimed && !NotLost(run, 6, 0)
  {
    var run := Wrong(jobs, p, OwnerOf(c), c);
    if Accounted(run, 6, 0) {
      var t: nat :| t < 6 && GoneAt(run, t, 0) && Since(run, t, 6, 0);
      WrongUnaccounted(jobs, p, OwnerOf(c), c, t);
      assert false;
    }
    assert Plain(p);
  }

  /** Over whole runs too, claimed files are safe exactly in folders where no job's pattern matches foreign claims. */
  lemma NothingLostIff(jobs: set<Name>)
    requires forall p | p in jobs :: Plain(p)
    ensures NothingLost(jobs) <==> Separate(jobs)
  {
    if Separate(jobs) {
      forall run: seq<State>, k: nat, i | IsRun(run) && run[0].jobs == jobs && k < |run| && i in run[k].claimed
        ensures NotLost(run, k, i)
      {
        OriginalNeverLost(run, k, k, i);
      }
    } else {
      var p, c :| p in jobs && Lists(p, c) && OwnerOf(c) in jobs && OwnerOf(c) != p;
      WrongIsRun(jobs, p, c);
      MistakenLoses(jobs, p, c);
      assert !NotLost(Wrong(jobs, p, OwnerOf(c), c), 6, 0);
    }
  }

  /** No job's pattern finds another job's file, as far as the names tell. */
  predicate SeparateNames(jobs: set<Name>) {
    forall p, q | p in jobs && q in jobs && p != q && q != "" && '\n' !in q :: !Finds(p, q)
  }

  /** Whatever the names are, the condition can be tested on them before any job runs. */
  lemma SeparateByNames(jobs: set<Name>)
    ensures Separate(jobs) <==> SeparateNames(jobs)
  {
    if SeparateNames(jobs) {
      forall p, c | p in jobs && Lists(p, c) && OwnerOf(c) in jobs ensures OwnerOf(c) == p {
        ClaimRebuilt(c);
        ListsByNames(p, OwnerOf(c), HexOf(c));
      }
    } else {
      var p, q :| p in jobs && q in jobs && p != q && q != "" && '\n' !in q && Finds(p, q);
      ClaimShape(q, SomeHex());
      ListsByNames(p, q, SomeHex());
      assert Lists(p, ClaimName(q, SomeHex()));
    }
  }

  predicate Ordinary(n: Name) {
    Literal(n) && n != "" && '\n' !in n
  }

  function SomeHex(): (h: string)
    ensures IsHex(h)
  {
    seq(32, _ => '0')
  }

  /** No name continues another one with the mark of a claim. */
  predicate Unmarked(jobs: set<Name>) {
    forall p, q | p in jobs && q in jobs :: !(p + MARK <= q)
  }

  lemma OrdinaryFinds(p: Name, q: Name)
    requires Ordinary(p) && Ordinary(q)
    ensures Finds(p, q) <==> q == p || p + MARK <= q
  {
    LiteralLists(p, q, SomeHex());
    ListsByNames(p, q, SomeHex());
  }

  /** For ordinary names that means that none continues another one with the mark of a claim. */
  lemma OrdinarySeparate(jobs: set<Name>)
    requires forall n | n in jobs :: Ordinary(n)
    ensures Separate(jobs) <==> Unmarked(jobs)
  {
    SeparateByNames(jobs);
    forall p, q | p in jobs && q in jobs ensures Finds(p, q) <==> q == p || p + MARK <= q {
      OrdinaryFinds(p, q);
    }
  }
}
