/**
 The upload worker as the procedure it is: the transactions it commits and the request it sends, in
 order. A worker that dies anywhere leaves a prefix of this procedure behind, which is why the
 procedure's contract is a path of the upload machine.
 */
module UploadWorker {
  import opened Common
  import opened UploadProtocol

  /** What became of one transfer. */
  datatype Transfer =
    | Accepted(obj: ObjectId)
    | Refused(operation: NoWrite)              // definitive, nothing was written
    | Lost(stored: Option<ObjectId>)           // no answer; the object may exist

  /** What complete reads of the bucket say about a send that was started earlier. */
  datatype Evidence = Found(obj: ObjectId) | Absent | Ambiguous

  datatype Ended = Published(obj: ObjectId) | AlreadyLinked(obj: ObjectId) | Suspended | Blocked

  ghost predicate IsPath(path: seq<State>, a: State, b: State) {
    path != [] && path[0] == a && path[|path| - 1] == b && forall k: nat | k + 1 < |path| :: StepAt(path, k)
  }

  lemma PathGrows(path: seq<State>, a: State, b: State, step: Step)
    requires IsPath(path, a, b) && Enabled(b, step)
    ensures IsPath(path + [Apply(b, step)], a, Apply(b, step))
  {
    var longer := path + [Apply(b, step)];
    forall k: nat | k + 1 < |longer| ensures StepAt(longer, k) {
      if k + 1 < |path| {
        assert StepAt(path, k);
      } else {
        assert Next(b, Apply(b, step));
      }
    }
  }

  predicate Unsent(n: Intent) {
    !n.settled && !n.sendStarted && n.version == None
  }

  /** A send that was started and not settled, or a receipt on an intent that never sent. */
  predicate InTheWay(n: Intent) {
    (n.sendStarted && !n.settled) || (Unsent(n) && n.receipts != {})
  }

  /** The new intent is open and has sent nothing; unsent ones of the same file are closed, all others as they were. */
  predicate Prepared(intents: map<IntentId, Intent>, intents': map<IntentId, Intent>, i: IntentId, file: FileId) {
    && i in intents' && intents'[i].file == file && Unsent(intents'[i]) && intents'[i].receipts == {}
    && forall k | k in intents && k != i ::
         && k in intents'
         && intents'[k] == if intents[k].file == file && Unsent(intents[k]) then intents[k].(settled := true)
              else intents[k]
  }

  lemma PreparableInColumns(s: State, i: IntentId, file: FileId)
    requires i !in s.intents
    ensures Enabled(s, Prepare(i, file)) <==>
      forall k | k in s.intents && s.intents[k].file == file :: !InTheWay(s.intents[k])
    ensures Enabled(s, Prepare(i, file)) ==> Prepared(s.intents, Apply(s, Prepare(i, file)).intents, i, file)
  {
  }

  class Ledger {
    var intents: map<IntentId, Intent>
    var landed: map<IntentId, set<ObjectId>>

    constructor ()
      ensures Here() == State(map[], map[])
    {
      intents, landed := map[], map[];
    }

    ghost function Here(): State
      reads this
    {
      State(intents, landed)
    }

    /**
     The send is marked as started in a transaction of its own. `fenced` says that the job claim and the pinned
     target still hold. Nobody can start the same send twice.
     */
    method StartSend(i: IntentId, fenced: bool) returns (ok: bool)
      requires i in intents
      modifies this`intents
      ensures ok <==> fenced && !old(intents)[i].sendStarted && old(intents)[i].receipts == {}
      ensures ok <==> fenced && Enabled(old(Here()), MarkSendStarted(i))
      ensures Here() == if ok then Apply(old(Here()), MarkSendStarted(i)) else old(Here())
      ensures ok ==> !Enabled(Here(), MarkSendStarted(i)) && |intents[i].pending| > 0
    {
      var n := intents[i];
      ok := fenced && n.receipts == {} && !n.sendStarted;
      if ok {
        var started := n.(sendStarted := true, starts := n.starts + 1, pending := n.pending + {n.starts});
        assert n.starts in started.pending;
        intents := intents[i := started];
      }
    }

    /** A definitive refusal is journaled and rearms the intent: the next attempt may start again. */
    method RecordRefusal(i: IntentId, operation: NoWrite, fenced: bool) returns (ok: bool)
      requires i in intents
      modifies this`intents
      ensures ok <==> fenced && var n := old(intents)[i];
        n.sendStarted && !n.settled && n.version == None && n.receipts == {}
      ensures ok <==> fenced && Enabled(old(Here()), RecordNoWrite(i, operation))
      ensures Here() == if ok then Apply(old(Here()), RecordNoWrite(i, operation)) else old(Here())
      ensures ok ==> Enabled(Here(), MarkSendStarted(i)) && operation in intents[i].refusals
    {
      var n := intents[i];
      ok := fenced && n.receipts == {} && n.sendStarted && !n.settled && n.version.None?;
      if ok {
        var repeated := operation in n.refusals;
        intents := intents[i := n.(sendStarted := false, outcomes := n.outcomes + 1,
          refusals := n.refusals + {operation},
                                   repeats := if repeated then n.repeats + 1 else n.repeats)];
      }
    }

    /** Links the acknowledged object; afterwards the intent can neither be started nor rearmed. */
    method LinkVersion(i: IntentId, obj: ObjectId, fenced: bool) returns (ok: bool)
      requires i in intents && obj in intents[i].receipts
      modifies this`intents
      ensures ok <==> fenced && old(intents)[i].version in {None, Some(obj)}
      ensures intents == if ok then old(intents)[i := old(intents)[i].(version := Some(obj))] else old(intents)
      ensures ok <==> fenced && Enabled(old(Here()), Publish(i, obj))
      ensures Here() == if ok then Apply(old(Here()), Publish(i, obj)) else old(Here())
      ensures ok ==>
        !Enabled(Here(), MarkSendStarted(i)) && forall operation :: !Enabled(Here(), RecordNoWrite(i, operation))
    {
      var n := intents[i];
      ok := fenced && (n.version.None? || n.version.value == obj);
      if ok {
        intents := intents[i := n.(version := Some(obj))];
      }
    }

    /** Closes every intent of the file that never sent; a receipt on one of them stops everything. */
    method Prepare(i: IntentId, file: FileId, rows: seq<IntentId>) returns (ok: bool)
      requires i !in intents
      requires forall k | k in intents :: intents[k].file == file ==> k in rows
      requires forall k | k in rows :: k in intents
      modifies this
      ensures ok <==> forall k | k in old(intents) && old(intents)[k].file == file :: !InTheWay(old(intents)[k])
      ensures ok ==> Prepared(old(intents), intents, i, file)
      ensures Here() == if ok then Apply(old(Here()), Step.Prepare(i, file)) else old(Here())
    {
      PreparableInColumns(Here(), i, file);
      ok := CloseUnsent(i, file, rows);
    }

    method CloseUnsent(i: IntentId, file: FileId, rows: seq<IntentId>) returns (ok: bool)
      requires i !in intents
      requires forall k | k in intents :: intents[k].file == file ==> k in rows
      requires forall k | k in rows :: k in intents
      modifies this
      ensures ok == Enabled(old(Here()), Step.Prepare(i, file))
      ensures Here() == if ok then Apply(old(Here()), Step.Prepare(i, file)) else old(Here())
    {
      var closed := intents;
      var k := 0;
      while k < |rows|
        invariant k <= |rows|
        invariant intents == old(intents) && closed.Keys == intents.Keys
        invariant forall j | j in intents && j in rows[..k] :: closed[j] == Closed(intents[j], file)
        invariant forall j | j in intents && j !in rows[..k] :: closed[j] == intents[j]
        invariant forall j | j in intents && j in rows[..k] && intents[j].file == file &&
          NeverSent(intents[j]) :: !HasReceipt(intents[j])
      {
        var n := intents[rows[k]];
        if n.file == file && NeverSent(n) && HasReceipt(n) {
          return false;
        }
        closed := closed[rows[k] := Closed(n, file)];
        assert rows[..k + 1] == rows[..k] + [rows[k]];
        k := k + 1;
      }
      assert rows[..k] == rows;
      ok := forall j | j in closed :: !(closed[j].file == file && closed[j].sendStarted && !closed[j].settled);
      if ok {
        assert closed == map j | j in intents :: Closed(intents[j], file);
        intents, landed := closed[i := NewIntent(file)], landed[i := {}];
        assert !Unexplained(old(Here()), file);
        forall j | j in old(intents)
          ensures !(old(intents)[j].file == file && old(intents)[j].sendStarted && !old(intents)[j].settled) {
          assert closed[j] == Closed(old(intents)[j], file);
        }
      } else {
        var j :| j in closed && closed[j].file == file && closed[j].sendStarted && !closed[j].settled;
        assert closed[j] == Closed(intents[j], file);
      }
    }

    method Send(i: IntentId, attempt: nat, stored: Option<ObjectId>)
      requires i in intents && i in landed && attempt in intents[i].pending
      modifies this
      ensures Here() == Apply(old(Here()), Put(i, attempt, stored))
    {
      intents := intents[i := Changed(intents[i], Put(i, attempt, stored))];
      if stored.Some? {
        landed := landed[i := landed[i] + {stored.value}];
      }
    }

    method AppendReceipt(i: IntentId, obj: ObjectId)
      requires i in intents && i in landed && obj in landed[i]
      modifies this
      ensures Here() == Apply(old(Here()), Acknowledge(i, obj))
    {
      intents := intents[i := Changed(intents[i], Acknowledge(i, obj))];
    }

    /**
     The acknowledgement is journaled whatever happened to the claim; the version is linked only while the claim
     and the target hold.
     */
    method Conclude(i: IntentId, obj: ObjectId, fenced: bool, ghost from: State, ghost path: seq<State>)
      returns (ended: Ended, ghost longer: seq<State>)
      requires i in intents && i in landed && obj in landed[i] && intents[i].version.None?
      requires IsPath(path, from, Here())
      modifies this
      ensures IsPath(longer, from, Here()) && landed == old(landed) && i in intents
      ensures intents[i].puts == old(intents[i].puts) && obj in intents[i].receipts
      ensures ended == if fenced then Published(obj) else Blocked
      ensures intents[i].version == if fenced then Some(obj) else None
    {
      PathGrows(path, from, Here(), Acknowledge(i, obj));
      AppendReceipt(i, obj);
      longer := path + [Here()];
      ghost var here := Here();
      var ok := LinkVersion(i, obj, fenced);
      if ok {
        PathGrows(longer, from, here, Publish(i, obj));
        longer := longer + [Here()];
      }
      ended := if ok then Published(obj) else Blocked;
    }

    /**
     Closing of an earlier, started send: publish what landed, rearm on proven absence, or block. `fenced` says that
     the claim and the target hold, `consistent` that an already linked version agrees with its receipt, and `paused`
     that the job may only reconcile while protection of its path is paused.
     */
    method Resume(i: IntentId, evidence: Evidence, fenced: bool, consistent: bool, paused: bool)
      returns (ended: Option<Ended>, ghost path: seq<State>)
      requires i in intents && i in landed && intents[i].sendStarted
      requires evidence.Found? ==> evidence.obj in landed[i]
      modifies this
      ensures IsPath(path, old(Here()), Here())
      ensures i in intents && i in landed && landed == old(landed)
      ensures intents[i].puts == old(intents[i].puts)
      ensures !fenced ==> ended == Some(Blocked) && Here() == old(Here())
      ensures fenced && old(intents[i].version).Some? ==>
        && Here() == old(Here())
        && ended == Some(if consistent then AlreadyLinked(old(intents[i].version).value) else Blocked)
      ensures ended.None? <==>
        && fenced && evidence.Absent? && !paused
        && old(intents[i].version).None? && !old(intents[i].settled) && old(intents[i].receipts) == {}
      ensures ended.None? ==> Enabled(Here(), MarkSendStarted(i)) && intents[i].version.None?
      ensures ended.Some? && ended.value.Published? ==>
        intents[i].version == Some(ended.value.obj) && evidence == Found(ended.value.obj)
      ensures evidence.Found? && fenced && old(intents[i].version).None? ==>
        (old(intents[i].receipts) <= {evidence.obj} ==> ended == Some(Published(evidence.obj)))
    {
      path := [Here()];
      if !fenced {
        return Some(Blocked), path;
      }
      if intents[i].version.Some? {
        return Some(if consistent then AlreadyLinked(intents[i].version.value) else Blocked), path;
      }
      match evidence
      case Ambiguous =>
        ended := Some(Blocked);
      case Absent =>
        if paused {
          return Some(Blocked), path;
        }
        ghost var here := Here();
        var ok := RecordRefusal(i, ProvenAbsent, fenced);
        if ok {
          PathGrows(path, old(Here()), here, RecordNoWrite(i, ProvenAbsent));
          path := path + [Here()];
        }
        ended := if ok then None else Some(Blocked);
      case Found(obj) =>
        if !(intents[i].receipts <= {obj}) {
          return Some(Blocked), path;      // a saved receipt names another object
        }
        var concluded;
        concluded, path := Conclude(i, obj, fenced, old(Here()), path);
        ended := Some(concluded);
    }

    /**
     The one send of an attempt: the start is committed first, and the outcome is journaled after it. The claim or the
     target may be lost before the start (`before`) and again while the transfer runs (`after`).
     */
    method Transmit(i: IntentId, transfer: Transfer, before: bool, after: bool)
      returns (ended: Ended, ghost path: seq<State>)
      requires i in intents && i in landed && Balanced(intents[i])
      modifies this
      ensures IsPath(path, old(Here()), Here())
      ensures i in intents && i in landed
      ensures intents[i].puts == old(intents[i].puts) + if before && Startable(old(intents[i])) then 1 else 0
      ensures !(before && Startable(old(intents[i]))) ==> ended.Blocked? && Here() == old(Here())
      ensures before && Startable(old(intents[i])) && transfer.Accepted? ==>
        && transfer.obj in intents[i].receipts
        && ended == (if after then Published(transfer.obj) else Blocked)
        && intents[i].version == (if after then Some(transfer.obj) else None)
      ensures before && Startable(old(intents[i])) && transfer.Refused? ==>
        && intents[i].sendStarted == (!after || old(intents[i].settled))
        && (after && !old(intents[i].settled) ==> transfer.operation in intents[i].refusals)
      ensures before && Startable(old(intents[i])) && transfer.Lost? ==> intents[i].sendStarted && ended.Suspended?
    {
      path := [Here()];
      ghost var start := Here();
      var attempt := intents[i].starts;
      var ok := StartSend(i, before);
      if !ok {
        return Blocked, path;
      }
      PathGrows(path, start, start, MarkSendStarted(i));
      path := path + [Here()];
      var stored := match transfer case Accepted(o) => Some(o) case Refused(_) => None case Lost(s) => s;
      PathGrows(path, start, Here(), Put(i, attempt, stored));
      Send(i, attempt, stored);
      path := path + [Here()];
      match transfer
      case Lost(_) =>
        ended := Suspended;
      case Refused(operation) =>
        ghost var sent := Here();
        ok := RecordRefusal(i, operation, after);
        if ok {
          PathGrows(path, start, sent, RecordNoWrite(i, operation));
          path := path + [Here()];
        }
        ended := Suspended;
      case Accepted(obj) =>
        ended, path := Conclude(i, obj, after, start, path);
    }
  }

  /** An intent whose send may be started. */
  predicate Startable(n: Intent) {
    !n.sendStarted && n.receipts == {}
  }
}
