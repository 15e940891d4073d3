/**
 The live tail of the journal. Each tick reads the high-water mark and then one bounded page, in two
 statements between which other transactions may append and prune; the stream emits one `catalog`
 frame per tick that has something to say.
 */
module EventStream {
  import opened Common
  import opened EventDomains
  import opened EventJournal

  /** First statement of a tick. */
  datatype Head = Head(current: nat, retained: nat)

  /** The domains an event invalidates; a payload that is not an object names none of its own. */
  function DomainsOf(e: Event): seq<string> {
    Normalize(if e.payload.Object? then e.payload else Null)
  }

  /** `signal_from_event`. */
  function SignalOf(vault: VaultId, revision: nat, e: Event): Signal {
    Signal(vault, revision, DomainsOf(e), false)
  }

  function InvalidateAll(vault: VaultId, revision: nat): Signal {
    Signal(vault, revision, Normalize(Null), true)
  }

  function Silent(vault: VaultId, revision: nat): Signal {
    Signal(vault, revision, [], false)
  }

  function Decode(vault: VaultId, j: Journal, rows: seq<nat>): seq<Signal>
    requires forall r | r in rows :: r in j.events
  {
    seq(|rows|, i requires 0 <= i < |rows| => SignalOf(vault, rows[i], j.events[rows[i]]))
  }

  /** At least one event per page, never more than the journal's page bound. */
  function Bound(maxEvents: nat): nat {
    Most(1, Least(maxEvents, MAX_PAGE))
  }

  lemma {:induction false} PageStored(j: Journal, after: nat, limit: nat)
    ensures forall r | r in Page(j, after, limit) :: r in j.events
    ensures |Page(j, after, limit)| <= limit
    decreases j.revision - after, limit
  {
    if after < j.revision && limit > 0 {
      if after + 1 in j.events { PageStored(j, after + 1, limit - 1); } else { PageStored(j, after + 1, limit); }
    }
  }

  /** `coalesced_catchup_from_connection`: head from the first read, page from the second. */
  function Catchup(vault: VaultId, head: Head, j: Journal, after: nat, maxEvents: nat): Signal {
    var n := Bound(maxEvents);
    if after >= head.current && after >= head.retained - 1 then Silent(vault, head.current)
    else if after < head.retained - 1 then InvalidateAll(vault, head.current)
    else
      PageStored(j, after, n + 1);
      var rows := Page(j, after, n + 1);
      var visible := rows[..Least(n, |rows|)];
      if visible == [] then
        if after < head.current then InvalidateAll(vault, head.current) else Silent(vault, head.current)
      else if visible[0] > Most(after + 1, head.retained) then InvalidateAll(vault, head.current)
      else if |rows| > n then InvalidateAll(vault, head.current)
      else
        match Coalesce(Decode(vault, j, visible))
        case One(m) => m
        case _ => Silent(vault, head.current)
  }

  /** What an event invalidates: the domains its object payload names, or files and statistics if it names none. */
  ghost predicate Invalidates(e: Event, d: string) {
    if e.payload.Object? && exists x :: Names(e.payload, x) then Names(e.payload, d) else d == "files" || d == "stats"
  }

  lemma DomainsAre(e: Event)
    ensures forall d :: d in DomainsOf(e) <==> Invalidates(e, d)
  {
    NormalizedNames(if e.payload.Object? then e.payload else Null);
  }

  /** The frame a client must get for the event at revision r. */
  ghost predicate Covers(f: Signal, r: nat, history: seq<Event>)
    requires 1 <= r <= |history|
  {
    f.hasGap || forall d | Invalidates(history[r - 1], d) :: d in f.domains
  }

  /** Without a gap, a frame names nothing but what the events in (after, revision] invalidate. */
  ghost predicate NothingElse(f: Signal, after: nat, history: seq<Event>)
    requires f.revision <= |history|
  {
    f.hasGap || forall d | d in f.domains :: InvalidatedIn(history, after, f.revision, d)
  }

  ghost predicate InvalidatedIn(history: seq<Event>, after: nat, upTo: nat, d: string)
    requires upTo <= |history|
  {
    exists k :: after <= k < upTo && Invalidates(history[k], d)
  }

  /** The shape all writers use: every name in the list is covered. */
  lemma ListedDomainsAreCovered(f: Signal, r: nat, history: seq<Event>, listed: seq<string>, rest: Value, d: string)
    requires 1 <= r <= |history| && Covers(f, r, history)
    requires history[r - 1].payload == Object(List(listed), rest) && d in listed && Clean(d)
    ensures f.hasGap || d in f.domains
  {
    var i :| 0 <= i < |listed| && listed[i] == d;
    StripClean(d);
    StripIs(d, d);
    assert Strips(listed[i], d) && NamedIn(listed, d);
    assert Names(history[r - 1].payload, d);
  }

  /** A tick is worth a frame when it advances the client or reports a gap. */
  predicate Emits(f: Signal, lastSeen: nat) {
    f.revision > lastSeen || f.hasGap
  }

  predicate HeadOk(h: Head) {
    1 <= h.retained <= h.current + 1
  }

  lemma DecodedSignals(vault: VaultId, j: Journal, rows: seq<nat>)
    requires forall r | r in rows :: r in j.events
    ensures forall s | s in Decode(vault, j, rows) :: s.vault == vault && WellFormed(s.domains) && !s.hasGap
    ensures forall i | 0 <= i < |rows| :: SignalOf(vault, rows[i], j.events[rows[i]]) in Decode(vault, j, rows)
  {
    var out := Decode(vault, j, rows);
    forall s | s in out ensures s.vault == vault && WellFormed(s.domains) && !s.hasGap {
      var i :| 0 <= i < |out| && out[i] == s;
      NormalizeFacts(if j.events[rows[i]].payload.Object? then j.events[rows[i]].payload else Null);
    }
    forall i | 0 <= i < |rows| ensures SignalOf(vault, rows[i], j.events[rows[i]]) in out {
      assert out[i] == SignalOf(vault, rows[i], j.events[rows[i]]);
    }
  }

  /** A page that continues the cursor merges to its newest revision and covers every row in it. */
  lemma ConsumedPage(vault: VaultId, j: Journal, history: seq<Event>, rows: seq<nat>, after: nat)
    requires Records(j, history) && rows != []
    requires forall i | 0 <= i < |rows| :: rows[i] == after + 1 + i && rows[i] in j.events
    ensures Coalesce(Decode(vault, j, rows)).One?
    ensures var m := Coalesce(Decode(vault, j, rows)).signal;
      && m.revision == after + |rows| <= |history| && !m.hasGap && NothingElse(m, after, history)
      && forall r | after < r <= m.revision :: Covers(m, r, history)
  {
    var out := Decode(vault, j, rows);
    DecodedSignals(vault, j, rows);
    CoalesceFacts(out, vault);
    var m := Coalesce(out).signal;
    assert rows[|rows| - 1] in j.events;
    assert SignalOf(vault, rows[|rows| - 1], j.events[rows[|rows| - 1]]) in out;
    forall s | s in out ensures s.revision <= after + |rows| {
      var i :| 0 <= i < |out| && out[i] == s;
    }
    forall r | after < r <= m.revision ensures Covers(m, r, history) {
      var i := r - after - 1;
      assert rows[i] == r && SignalOf(vault, rows[i], j.events[rows[i]]) in out;
      DomainsAre(history[r - 1]);
    }
    forall d | d in m.domains ensures InvalidatedIn(history, after, m.revision, d) {
      var s :| s in out && d in s.domains;
      var i :| 0 <= i < |out| && out[i] == s;
      DomainsAre(history[rows[i] - 1]);
      assert Invalidates(history[rows[i] - 1], d);
    }
  }

  /**
   One tick, whatever was appended or pruned between its two reads: a frame that is emitted always
   moves the client forward, and it covers every event it moves the client past.
   */
  lemma TickCovers(vault: VaultId, head: Head, j: Journal, history: seq<Event>, after: nat, maxEvents: nat)
    requires HeadOk(head) && Records(j, history) && head.current <= |history|
    ensures var f := Catchup(vault, head, j, after, maxEvents);
      && f.revision <= |history|
      && (Emits(f, after) ==>
            && f.revision > after && NothingElse(f, after, history)
            && forall r | after < r <= f.revision :: Covers(f, r, history))
  {
    var n := Bound(maxEvents);
    PageIsConsecutive(j, history, after, n + 1);
    var rows := Page(j, after, n + 1);
    var visible := rows[..Least(n, |rows|)];
    if !(after >= head.current && after >= head.retained - 1) && after >= head.retained - 1
       && visible != [] && visible[0] <= after + 1 && |rows| <= n {
      assert visible == rows;
      ConsumedPage(vault, j, history, rows, after);
    }
  }

  /** With nothing interfering, one tick brings any client that is not ahead up to date. */
  lemma QuiescentTickCatchesUp(vault: VaultId, j: Journal, history: seq<Event>, after: nat, maxEvents: nat)
    requires Records(j, history) && after <= j.revision
    ensures var f := Catchup(vault, Head(j.revision, j.retained), j, after, maxEvents);
      && f.revision == j.revision
      && (after < j.revision <==> Emits(f, after))
  {
    var n := Bound(maxEvents);
    PageIsConsecutive(j, history, after, n + 1);
    var rows := Page(j, after, n + 1);
    if after < j.revision && after >= j.retained - 1 && |rows| <= n {
      assert rows[..Least(n, |rows|)] == rows;
      ConsumedPage(vault, j, history, rows, after);
    }
  }

  // ----- the stream -----

  /** Frame i covers everything between the previous frame (or the resume point) and itself. */
  ghost predicate FrameAt(frames: seq<Signal>, resume: nat, i: nat, history: seq<Event>)
    requires i < |frames|
  {
    var low := if i == 0 then resume else frames[i - 1].revision;
    && low < frames[i].revision <= |history| && NothingElse(frames[i], low, history)
    && forall r | low < r <= frames[i].revision :: Covers(frames[i], r, history)
  }

  ghost predicate Coverage(frames: seq<Signal>, resume: nat, lastSeen: nat, history: seq<Event>) {
    && (forall i: nat | i < |frames| :: FrameAt(frames, resume, i, history))
    && lastSeen == if frames == [] then resume else frames[|frames| - 1].revision
  }

  /** The two reads of one tick; the journal of the second may have moved on since the first. */
  datatype Tick = Tick(head: Head, journal: Journal)

  /** Reads any interleaving of appends and prunes can produce, with the events appended so far. */
  ghost predicate Observed(t: Tick, history: seq<Event>) {
    HeadOk(t.head) && t.head.current <= t.journal.revision &&
      Records(t.journal, history[..Least(t.journal.revision, |history|)])
      && t.journal.revision <= |history|
  }

  /** What other transactions did before a tick, and between its two reads. */
  datatype Turn = Turn(before: seq<Op>, between: seq<Op>)

  function JournalAfter(j: Journal, turns: seq<Turn>): Journal {
    if turns == [] then j
    else
      var t := turns[|turns| - 1];
      TransactAll(TransactAll(JournalAfter(j, turns[..|turns| - 1]), t.before), t.between)
  }

  function HistoryAfter(turns: seq<Turn>): seq<Event> {
    if turns == [] then []
    else
      var t := turns[|turns| - 1];
      HistoryAfter(turns[..|turns| - 1]) + Appended(t.before) + Appended(t.between)
  }

  /** The reads a stream makes while the journal is being worked on in this way. */
  function TicksOf(j: Journal, turns: seq<Turn>): seq<Tick> {
    if turns == [] then []
    else
      var t := turns[|turns| - 1];
      var first := TransactAll(JournalAfter(j, turns[..|turns| - 1]), t.before);
      TicksOf(j, turns[..|turns| - 1]) + [Tick(Head(first.revision, first.retained), TransactAll(first, t.between))]
  }

  lemma ObservedLater(t: Tick, history: seq<Event>, more: seq<Event>)
    requires Observed(t, history)
    ensures Observed(t, history + more)
  {
  }

  /** Every interleaving of appends and prunes with the ticks gives reads the stream can live with. */
  lemma {:induction false} InterleavedReadsObserved(turns: seq<Turn>)
    ensures Records(JournalAfter(EMPTY, turns), HistoryAfter(turns))
    ensures forall t | t in TicksOf(EMPTY, turns) :: Observed(t, HistoryAfter(turns))
  {
    if turns != [] {
      var init, turn := turns[..|turns| - 1], turns[|turns| - 1];
      InterleavedReadsObserved(init);
      var h := HistoryAfter(init);
      RecordsKept(JournalAfter(EMPTY, init), h, turn.before);
      var first := TransactAll(JournalAfter(EMPTY, init), turn.before);
      RecordsKept(first, h + Appended(turn.before), turn.between);
      var full := HistoryAfter(turns);
      assert full[..|full|] == full;
      assert h + (Appended(turn.before) + Appended(turn.between)) == full;
      forall t | t in TicksOf(EMPTY, turns) ensures Observed(t, full) {
        if t in TicksOf(EMPTY, init) {
          ObservedLater(t, h, Appended(turn.before) + Appended(turn.between));
        }
      }
    }
  }

  /**
   The loop of the event stream: last_seen only moves when a frame is sent. Whatever happened
   between and during the ticks, every event revision in (resume, lastSeen] is covered by the frame
   that stepped over it, and frame revisions strictly increase.
   */
  method Stream(vault: VaultId, resume: nat, ticks: seq<Tick>, maxEvents: nat, ghost history: seq<Event>)
    returns (frames: seq<Signal>, lastSeen: nat)
    requires forall t | t in ticks :: Observed(t, history)
    ensures Coverage(frames, resume, lastSeen, history)
    ensures forall i, k | 0 <= i < k < |frames| :: frames[i].revision < frames[k].revision
    ensures lastSeen >= resume
  {
    frames, lastSeen := [], resume;
    for i := 0 to |ticks|
      invariant Coverage(frames, resume, lastSeen, history) && lastSeen >= resume
      invariant forall a, b | 0 <= a < b < |frames| :: frames[a].revision < frames[b].revision
      invariant forall a | 0 <= a < |frames| :: frames[a].revision <= lastSeen
    {
      var t := ticks[i];
      assert Observed(t, history);
      var signal := Catchup(vault, t.head, t.journal, lastSeen, maxEvents);
      ghost var seen := history[..t.journal.revision];
      TickCovers(vault, t.head, t.journal, seen, lastSeen, maxEvents);
      if Emits(signal, lastSeen) {
        FrameAdded(frames, resume, lastSeen, history, signal, seen);
        lastSeen := Most(lastSeen, signal.revision);
        frames := frames + [signal];
      }
    }
  }

  lemma FrameAdded(frames: seq<Signal>, resume: nat, lastSeen: nat, history: seq<Event>, f: Signal, seen: seq<Event>)
    requires Coverage(frames, resume, lastSeen, history) && seen <= history
    requires lastSeen < f.revision <= |seen| && forall r | lastSeen < r <= f.revision :: Covers(f, r, seen)
    requires NothingElse(f, lastSeen, seen)
    ensures Coverage(frames + [f], resume, f.revision, history)
  {
    forall i: nat | i < |frames + [f]| ensures FrameAt(frames + [f], resume, i, history) {
      if i < |frames| {
        assert FrameAt(frames, resume, i, history);
      } else {
        forall r | lastSeen < r <= f.revision ensures Covers(f, r, history) { assert Covers(f, r, seen); }
        forall d | d in f.domains && !f.hasGap ensures InvalidatedIn(history, lastSeen, f.revision, d) {
          var k :| lastSeen <= k < f.revision && Invalidates(seen[k], d);
          assert Invalidates(history[k], d);
        }
      }
    }
  }
}
