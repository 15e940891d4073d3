/**
 The durable journal of catalog events: one dense revision sequence per Vault, appended under the
 Vault lock and pruned from the front behind a durable retention marker.
 */
module EventJournal {
  import opened Common
  import opened EventDomains

  datatype Event = Event(domain: string, payload: Value)

  const MAX_PAGE: nat := 100

  /** The revision row and the event rows of one Vault; a missing row reads as (0, 1, nothing). */
  datatype Journal = Journal(revision: nat, retained: nat, events: map<nat, Event>)

  const EMPTY: Journal := Journal(0, 1, map[])

  /** The journal holds exactly the retained suffix of everything ever appended. */
  ghost predicate Records(j: Journal, history: seq<Event>) {
    && j.revision == |history| && 1 <= j.retained <= j.revision + 1
    && (forall r :: r in j.events <==> j.retained <= r <= j.revision)
    && forall r | j.retained <= r <= j.revision :: j.events[r] == history[r - 1]
  }

  datatype Outcome<+T> = Done(value: T) | Refused

  /** Rows after a revision, oldest first, at most `limit` of them. */
  function Page(j: Journal, after: nat, limit: nat): seq<nat>
    decreases j.revision - after
  {
    if after >= j.revision || limit == 0 then []
    else if after + 1 in j.events then [after + 1] + Page(j, after + 1, limit - 1)
    else Page(j, after + 1, limit)
  }

  function Least(a: int, b: int): int { if a < b then a else b }

  function Most(a: int, b: int): int { if a < b then b else a }

  /** In a recorded journal the page is the run of consecutive revisions that starts the tail. */
  lemma {:induction false} PageIsConsecutive(j: Journal, history: seq<Event>, after: nat, limit: nat)
    requires Records(j, history)
    ensures var p := Page(j, after, limit); var start := Most(after + 1, j.retained);
      && |p| == Most(0, Least(limit, j.revision + 1 - start))
      && forall i | 0 <= i < |p| :: p[i] == start + i && p[i] in j.events
    decreases j.revision - after, limit
  {
    if after < j.revision && limit > 0 {
      if after + 1 in j.events {
        PageIsConsecutive(j, history, after + 1, limit - 1);
      } else {
        PageIsConsecutive(j, history, after + 1, limit);
      }
    }
  }

  datatype Reading = Reading(current: nat, retained: nat, hasGap: bool, hasMore: bool, revisions: seq<nat>)

  /** `read_events`. */
  function Read(j: Journal, after: nat, limit: nat): Outcome<Reading> {
    if limit == 0 then Refused
    else
      var n := Least(limit, MAX_PAGE);
      var rows := Page(j, after, n + 1);
      var visible := rows[..Least(n, |rows|)];
      var gap := || after < j.retained - 1
                 || (visible != [] && visible[0] > Most(after + 1, j.retained))
                 || (visible == [] && after < j.revision);
      Done(Reading(j.revision, j.retained, gap, |rows| > n, visible))
  }

  /**
   A page read from a recorded journal reports a gap exactly when retention has swallowed
   something after the cursor; without one it continues the cursor revision by revision.
   */
  lemma ReadFacts(j: Journal, history: seq<Event>, after: nat, limit: nat)
    requires Records(j, history) && limit > 0
    ensures Read(j, after, limit).Done?
    ensures var r := Read(j, after, limit).value;
      && (r.hasGap <==> after + 1 < j.retained)
      && (!r.hasGap ==> forall i | 0 <= i < |r.revisions| :: r.revisions[i] == after + 1 + i)
      && (r.hasMore <==> |r.revisions| < j.revision + 1 - Most(after + 1, j.retained))
  {
    PageIsConsecutive(j, history, after, Least(limit, MAX_PAGE) + 1);
  }

  // ----- journal transactions as values -----

  datatype Op = Add(event: Event) | Cut(retainFrom: nat)

  predicate Refuses(j: Journal, retainFrom: nat) {
    retainFrom == 0 || retainFrom > j.revision + 1
  }

  function Transact(j: Journal, op: Op): Journal {
    match op
    case Add(e) => Journal(j.revision + 1, j.retained, j.events[j.revision + 1 := e])
    case Cut(k) =>
      if Refuses(j, k) then j
      else Journal(j.revision, Most(j.retained, k), map r | r in j.events && r >= k :: j.events[r])
  }

  function TransactAll(j: Journal, ops: seq<Op>): Journal {
    if ops == [] then j else Transact(TransactAll(j, ops[..|ops| - 1]), ops[|ops| - 1])
  }

  /** The events a list of transactions appends, in order. */
  function Appended(ops: seq<Op>): seq<Event> {
    if ops == [] then []
    else Appended(ops[..|ops| - 1]) + (match ops[|ops| - 1] case Add(e) => [e] case Cut(_) => [])
  }

  /** Any mix of appends and prunes keeps the journal a dense record of what was appended. */
  lemma {:induction false} RecordsKept(j: Journal, history: seq<Event>, ops: seq<Op>)
    requires Records(j, history)
    ensures Records(TransactAll(j, ops), history + Appended(ops))
  {
    if ops == [] {
      assert history + [] == history;
    } else {
      RecordsKept(j, history, ops[..|ops| - 1]);
      assert history + Appended(ops) == history + Appended(ops[..|ops| - 1])
        + (match ops[|ops| - 1] case Add(e) => [e] case Cut(_) => []);
    }
  }

  class EventStore {
    var revision: nat
    var retained: nat
    var events: map<nat, Event>
    ghost var history: seq<Event>

    ghost function Rows(): Journal
      reads this
    {
      Journal(revision, retained, events)
    }

    ghost predicate Valid()
      reads this
    {
      Records(Rows(), history)
    }

    constructor ()
      ensures Valid() && history == []
    {
      revision, retained, events, history := 0, 1, map[], [];
    }

    /** Allocates the next revision and records the event under it. */
    method Append(e: Event) returns (r: nat)
      requires Valid()
      modifies this
      ensures Valid() && r == |history| && history == old(history) + [e]
      ensures Rows() == Transact(old(Rows()), Add(e))
    {
      revision := revision + 1;
      r := revision;
      events := events[r := e];
      history := history + [e];
    }

    /** Drops events before a revision and remembers, durably, that they are gone. */
    method Prune(retainFrom: nat) returns (o: Outcome<nat>)
      requires Valid()
      modifies this
      ensures Valid() && history == old(history)
      ensures o.Refused? <==> Refuses(old(Rows()), retainFrom)
      ensures Rows() == Transact(old(Rows()), Cut(retainFrom))
      ensures o.Done? ==> o.value == |old(events)| - |events|
    {
      if retainFrom == 0 || retainFrom > revision + 1 { return Refused; }
      var kept := map r | r in events && r >= retainFrom :: events[r];
      assert kept.Keys <= events.Keys;
      SubsetSize(kept.Keys, events.Keys);
      var deleted := |events| - |kept|;
      events := kept;
      retained := Most(retained, retainFrom);
      return Done(deleted);
    }
  }
}
