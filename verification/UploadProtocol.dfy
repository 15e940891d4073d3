/**
 The upload protocol: an intent is journaled before anything is sent, marked as started in its own
 transaction, and only then sent; receipts and definitive no-write outcomes are journaled as facts.
 Attempts may crash, stall and resume at any point, responses may be lost, and any number of workers
 may hold the same intent in turn. Nothing below relies on the job lease.
 */
module UploadProtocol {
  import opened Common

  type IntentId = nat
  type ObjectId = nat

  /** Definitive outcomes in which the provider wrote nothing. */
  datatype NoWrite = PutObject | CreateMultipartUpload | UploadPart | CompleteMultipartUpload | ProvenAbsent

  datatype Intent = Intent(
    file: FileId,
    sendStarted: bool,
    settled: bool,
    version: Option<ObjectId>,       // archive_version_id, linked by publication
    receipts: set<ObjectId>,         // acknowledged VersionIds
    refusals: set<NoWrite>,          // journaled no-write facts; an equal fact is stored once
    // bookkeeping of the run
    starts: nat,                     // times the send was marked as started
    outcomes: nat,                   // no-write outcomes journaled
    repeats: nat,                    // of those, how many repeated a fact already stored
    puts: nat,                       // requests issued to the provider
    abandoned: nat,                  // attempts that died before sending
    pending: set<nat>)               // attempts allowed to send that have not sent yet

  /** Intents, and the objects each of them has put into the bucket. */
  datatype State = State(intents: map<IntentId, Intent>, landed: map<IntentId, set<ObjectId>>)

  datatype Step =
    | Prepare(i: IntentId, file: FileId)
    | Repin(i: IntentId)                           // same intent, new snapshot and token, nothing sent yet
    | MarkSendStarted(i: IntentId)
    | Put(i: IntentId, attempt: nat, stored: Option<ObjectId>)
    | Abandon(i: IntentId, attempt: nat)           // the worker dies before sending
    | Acknowledge(i: IntentId, obj: ObjectId)   // a response, even late, or an exact HEAD
    | RecordNoWrite(i: IntentId, operation: NoWrite)
    | Publish(i: IntentId, obj: ObjectId)
    | Settle(i: IntentId)

  /** A no-write fact is history; only an acknowledged VersionId is a receipt. */
  predicate HasReceipt(n: Intent) { n.receipts != {} }

  predicate Outstanding(s: State, file: FileId) {
    exists i | i in s.intents :: s.intents[i].file == file && s.intents[i].sendStarted && !s.intents[i].settled
  }

  /** An intent that never sent cannot own a receipt; preparing another one blocks on such a contradiction. */
  predicate Unexplained(s: State, file: FileId) {
    exists i | i in s.intents :: s.intents[i].file == file && NeverSent(s.intents[i]) && HasReceipt(s.intents[i])
  }

  predicate NeverSent(n: Intent) {
    !n.settled && !n.sendStarted && n.version.None?
  }

  /** What the conditional statement of a step demands of the intent row. */
  predicate Guard(n: Intent, step: Step) {
    match step
    case Prepare(_, _) => false
    case Repin(_) => NeverSent(n) && !HasReceipt(n)
    case MarkSendStarted(_) => !n.sendStarted && !HasReceipt(n)
    case Put(_, a, _) => a in n.pending
    case Abandon(_, a) => a in n.pending
    case Acknowledge(_, _) => true
    case RecordNoWrite(_, _) => n.sendStarted && !n.settled && n.version.None? && !HasReceipt(n)
    case Publish(_, o) => o in n.receipts && (n.version.None? || n.version == Some(o))
    case Settle(_) => true
  }

  predicate Enabled(s: State, step: Step) {
    match step
    case Prepare(i, file) => i !in s.intents && !Outstanding(s, file) && !Unexplained(s, file)
    case Acknowledge(i, o) => i in s.intents && i in s.landed && o in s.landed[i]
    case _ => step.i in s.intents && Guard(s.intents[step.i], step)
  }

  function Changed(n: Intent, step: Step): Intent {
    match step
    case MarkSendStarted(_) => n.(sendStarted := true, starts := n.starts + 1, pending := n.pending + {n.starts})
    case Put(_, a, _) => n.(puts := n.puts + 1, pending := n.pending - {a})
    case Abandon(_, a) => n.(abandoned := n.abandoned + 1, pending := n.pending - {a})
    case Acknowledge(_, o) => n.(receipts := n.receipts + {o})
    case RecordNoWrite(_, op) =>
      n.(sendStarted := false, outcomes := n.outcomes + 1, refusals := n.refusals + {op},
         repeats := if op in n.refusals then n.repeats + 1 else n.repeats)
    case Publish(_, o) => n.(version := Some(o))
    case Settle(_) => n.(settled := true)
    case _ => n
  }

  function NewIntent(file: FileId): Intent {
    Intent(file, false, false, None, {}, {}, 0, 0, 0, 0, 0, {})
  }

  /** Preparing an intent closes those of the same file that never sent anything. */
  function Closed(n: Intent, file: FileId): Intent {
    if n.file == file && NeverSent(n) then n.(settled := true) else n
  }

  function Apply(s: State, step: Step): State
    requires Enabled(s, step)
  {
    match step
    case Prepare(i, file) =>
      State((map k | k in s.intents :: Closed(s.intents[k], file))[i := NewIntent(file)], s.landed[i := {}])
    case Put(i, _, stored) =>
      State(s.intents[i := Changed(s.intents[i], step)],
            if stored.Some? && i in s.landed then s.landed[i := s.landed[i] + {stored.value}] else s.landed)
    case _ => s.(intents := s.intents[step.i := Changed(s.intents[step.i], step)])
  }

  ghost predicate Next(s: State, s': State) {
    exists step :: Enabled(s, step) && s' == Apply(s, step)
  }

  ghost predicate StepAt(run: seq<State>, k: nat)
    requires k + 1 < |run|
  {
    Next(run[k], run[k + 1])
  }

  ghost predicate IsRun(run: seq<State>) {
    run != [] && run[0] == State(map[], map[]) && forall k: nat | k + 1 < |run| :: StepAt(run, k)
  }

  // ----- counting -----

  /** Every start is matched by a no-write outcome, except the one that is still open. */
  predicate Balanced(n: Intent) {
    && n.starts == n.outcomes + (if n.sendStarted then 1 else 0)
    && n.puts + |n.pending| + n.abandoned == n.starts
    && (forall a | a in n.pending :: a < n.starts)
    && |n.refusals| + n.repeats == n.outcomes
    && (n.version.Some? ==> HasReceipt(n))
  }

  predicate AllBalanced(s: State) {
    forall i | i in s.intents :: Balanced(s.intents[i])
  }

  lemma OneMore(refusals: set<NoWrite>, op: NoWrite)
    ensures |refusals + {op}| == |refusals| + if op in refusals then 0 else 1
  {
    if op in refusals {
      assert refusals + {op} == refusals;
    }
  }

  lemma BalancedRow(n: Intent, step: Step)
    requires Balanced(n) && Guard(n, step)
    ensures Balanced(Changed(n, step))
  {
    match step
    case MarkSendStarted(_) => assert n.starts !in n.pending;
    case Put(_, a, _) => assert |n.pending - {a}| == |n.pending| - 1;
    case Abandon(_, a) => assert |n.pending - {a}| == |n.pending| - 1;
    case RecordNoWrite(_, op) => OneMore(n.refusals, op);
    case _ =>
  }

  lemma BalancedStep(s: State, step: Step)
    requires Enabled(s, step) && AllBalanced(s)
    ensures AllBalanced(Apply(s, step))
  {
    if !step.Prepare? {
      BalancedRow(s.intents[step.i], step);
    }
  }

  lemma BalancedNext(s: State, s': State)
    requires Next(s, s') && AllBalanced(s)
    ensures AllBalanced(s')
  {
    var step :| Enabled(s, step) && s' == Apply(s, step);
    BalancedStep(s, step);
  }

  lemma {:induction false} BalancedOverRuns(run: seq<State>, k: nat)
    requires IsRun(run) && k < |run|
    ensures AllBalanced(run[k])
  {
    if k > 0 {
      BalancedOverRuns(run, k - 1);
      assert StepAt(run, k - 1);
      BalancedNext(run[k - 1], run[k]);
    }
  }

  /**
   However attempts crash, stall or take over from one another, the requests issued for one intent
   never exceed one plus its journaled no-write outcomes.
   */
  lemma PutsBounded(run: seq<State>, k: nat, i: IntentId)
    requires IsRun(run) && k < |run| && i in run[k].intents
    ensures run[k].intents[i].puts <= 1 + run[k].intents[i].outcomes
  {
    BalancedOverRuns(run, k);
    assert Balanced(run[k].intents[i]);
  }

  /**
   The outcomes cannot be counted from the journal's rows alone: a repeated refusal stores no second row. The rows
   bound the requests exactly as long as the repeated refusals and an open start are made up for by attempts that
   have not sent.
   */
  lemma RowsBoundPuts(run: seq<State>, k: nat, i: IntentId)
    requires IsRun(run) && k < |run| && i in run[k].intents
    ensures var n := run[k].intents[i];
      && n.puts <= 1 + |n.refusals| + n.repeats
      && (n.puts <= 1 + |n.refusals| <==>
            n.repeats + (if n.sendStarted then 1 else 0) <= 1 + |n.pending| + n.abandoned)
  {
    BalancedOverRuns(run, k);
    assert Balanced(run[k].intents[i]);
  }

  /** A run whose only intent is number 7, and whose requests are all refused. */
  predicate Refusing(run: seq<State>, n: Intent) {
    run != [] && run[|run| - 1] == State(map[7 := n], map[7 := {}])
  }

  lemma Extend(run: seq<State>, n: Intent, step: Step) returns (longer: seq<State>)
    requires IsRun(run) && Refusing(run, n)
    requires step.i == 7 && Guard(n, step) && !step.Acknowledge? && (step.Put? ==> step.stored.None?)
    ensures IsRun(longer) && Refusing(longer, Changed(n, step))
  {
    var last := run[|run| - 1];
    assert Enabled(last, step);
    var next := Apply(last, step);
    assert next == State(map[7 := Changed(n, step)], map[7 := {}]);
    longer := run + [next];
    forall k: nat | k + 1 < |longer| ensures StepAt(longer, k) {
      if k + 1 < |run| {
        assert StepAt(run, k);
      } else {
        assert Next(last, next);
      }
    }
  }

  /** One round: start, send, and be refused as a PutObject. */
  lemma Refuse(run: seq<State>, n: Intent) returns (longer: seq<State>, n': Intent)
    requires IsRun(run) && Refusing(run, n)
    requires NeverSent(n) && !HasReceipt(n) && n.pending == {} && n.refusals <= {PutObject}
    ensures IsRun(longer) && Refusing(longer, n')
    ensures NeverSent(n') && !HasReceipt(n') && n'.pending == {} && n'.refusals == {PutObject} && n'.puts == n.puts + 1
  {
    var n1 := Changed(n, MarkSendStarted(7));
    var r1 := Extend(run, n, MarkSendStarted(7));
    var n2 := Changed(n1, Put(7, n.starts, None));
    var r2 := Extend(r1, n1, Put(7, n.starts, None));
    n' := Changed(n2, RecordNoWrite(7, PutObject));
    longer := Extend(r2, n2, RecordNoWrite(7, PutObject));
  }

  /** Equal refusals leave one row behind any number of requests. */
  lemma {:induction false} RowsUndercount(rounds: nat) returns (run: seq<State>, n: Intent)
    ensures IsRun(run) && Refusing(run, n) && n.puts == rounds && n.refusals <= {PutObject}
    ensures NeverSent(n) && !HasReceipt(n) && n.pending == {}
    ensures rounds > 2 ==> n.puts > 1 + |n.refusals|
  {
    if rounds == 0 {
      n := NewIntent(1);
      var none := State(map[], map[]);
      var one := State(map[7 := n], map[7 := {}]);
      assert Enabled(none, Prepare(7, 1)) && Apply(none, Prepare(7, 1)) == one;
      run := [none, one];
    } else {
      var shorter, m := RowsUndercount(rounds - 1);
      run, n := Refuse(shorter, m);
      assert n.refusals == {PutObject} && |n.refusals| == 1;
    }
  }

  // ----- after publication -----

  predicate Linked(s: State, i: IntentId, starts: nat, outcomes: nat) {
    && i in s.intents && Balanced(s.intents[i]) && s.intents[i].version.Some?
    && s.intents[i].starts == starts && s.intents[i].outcomes == outcomes
  }

  lemma LinkedNext(s: State, s': State, i: IntentId, starts: nat, outcomes: nat)
    requires Next(s, s') && Linked(s, i, starts, outcomes)
    ensures Linked(s', i, starts, outcomes)
  {
    var step :| Enabled(s, step) && s' == Apply(s, step);
    if !step.Prepare? && step.i == i {
      BalancedRow(s.intents[i], step);
    }
  }

  /** Once a receipt is linked, no later attempt is ever allowed to send, and no outcome is ever added. */
  lemma {:induction false} LinkedIntentNeverRestarts(run: seq<State>, a: nat, k: nat, i: IntentId, starts: nat,
    outcomes: nat)
    requires IsRun(run) && a <= k < |run| && Linked(run[a], i, starts, outcomes)
    ensures Linked(run[k], i, starts, outcomes) && !Enabled(run[k], MarkSendStarted(i))
    decreases k
  {
    if a < k {
      LinkedIntentNeverRestarts(run, a, k - 1, i, starts, outcomes);
      assert StepAt(run, k - 1);
      LinkedNext(run[k - 1], run[k], i, starts, outcomes);
    }
  }

  // ----- with sound absence proofs -----

  /**
   A no-write outcome is truthful when no attempt may still send and nothing landed: the transfer had
   joined all its requests, or complete reads of the bucket proved absence for the sole active job.
   */
  predicate Truthful(s: State, step: Step) {
    step.RecordNoWrite? && step.i in s.intents && step.i in s.landed ==>
      s.intents[step.i].pending == {} && s.landed[step.i] == {}
  }

  ghost predicate TruthfulNext(s: State, s': State) {
    exists step :: Enabled(s, step) && Truthful(s, step) && s' == Apply(s, step)
  }

  ghost predicate TruthfulAt(run: seq<State>, k: nat)
    requires k + 1 < |run|
  {
    TruthfulNext(run[k], run[k + 1])
  }

  ghost predicate IsTruthfulRun(run: seq<State>) {
    run != [] && run[0] == State(map[], map[]) && forall k: nat | k + 1 < |run| :: TruthfulAt(run, k)
  }

  /** At most one attempt may send, at most one object exists, and never both. */
  predicate SingleRow(n: Intent, landed: set<ObjectId>) {
    && n.receipts <= landed
    && (n.version.Some? ==> n.version.value in landed)
    && (forall a | a in n.pending :: n.sendStarted && landed == {} && n.pending == {a})
    && (forall o | o in landed :: n.sendStarted && landed == {o})
  }

  predicate Single(s: State) {
    s.intents.Keys == s.landed.Keys && forall i | i in s.intents :: SingleRow(s.intents[i], s.landed[i])
  }

  lemma SingleStep(s: State, step: Step)
    requires Enabled(s, step) && Truthful(s, step) && Single(s)
    ensures Single(Apply(s, step))
  {
  }

  lemma {:induction false} SingleOverRuns(run: seq<State>, k: nat)
    requires IsTruthfulRun(run) && k < |run|
    ensures Single(run[k])
  {
    if k > 0 {
      SingleOverRuns(run, k - 1);
      assert TruthfulAt(run, k - 1);
      var step :| Enabled(run[k - 1], step) && Truthful(run[k - 1], step) && run[k] == Apply(run[k - 1], step);
      SingleStep(run[k - 1], step);
    }
  }

  /**
   An intent stores at most one object, whatever was lost or retried: every receipt and the published
   version name that object, so receipts never contradict each other.
   */
  lemma AtMostOneObject(run: seq<State>, k: nat, i: IntentId, o: ObjectId)
    requires IsTruthfulRun(run) && k < |run| && i in run[k].intents
    ensures i in run[k].landed
    ensures o in run[k].landed[i] ==>
      && run[k].landed[i] == {o}
      && run[k].intents[i].receipts <= {o}
      && (run[k].intents[i].version.Some? ==> run[k].intents[i].version == Some(o))
    ensures run[k].landed[i] == {} ==> run[k].intents[i].receipts == {} && run[k].intents[i].version.None?
  {
    SingleOverRuns(run, k);
    assert SingleRow(run[k].intents[i], run[k].landed[i]);
  }

  /** Once an object landed, and so once a receipt is linked, no further request is ever issued. */
  lemma {:induction false} NoRequestAfterLanding(run: seq<State>, a: nat, k: nat, i: IntentId)
    requires IsTruthfulRun(run) && a <= k < |run|
    requires i in run[a].intents && i in run[a].landed
    requires run[a].landed[i] != {} || run[a].intents[i].version.Some?
    ensures i in run[k].intents && i in run[k].landed && run[k].landed[i] == run[a].landed[i]
    ensures run[k].intents[i].puts == run[a].intents[i].puts
    decreases k
  {
    SingleOverRuns(run, a);
    assert SingleRow(run[a].intents[i], run[a].landed[i]);
    if a < k {
      NoRequestAfterLanding(run, a, k - 1, i);
      SingleOverRuns(run, k - 1);
      var s := run[k - 1];
      assert SingleRow(s.intents[i], s.landed[i]);
      var o :| o in s.landed[i];
      assert TruthfulAt(run, k - 1);
      var step :| Enabled(s, step) && Truthful(s, step) && run[k] == Apply(s, step);
    }
  }
}
