/** Walking the cause/context graph of an exception, which may be cyclic, and the bounded retry built on it. */
module ExceptionChain {
  import opened Common

  type ErrorId = nat

  /** `state` is the SQLSTATE of a database error. */
  datatype Error = Error(cause: Option<ErrorId>, context: Option<ErrorId>, state: Option<string>)

  type Heap = map<ErrorId, Error>

  predicate Closed(heap: Heap) {
    forall e | e in heap :: (heap[e].cause.Some? ==> heap[e].cause.value in heap) &&
      (heap[e].context.Some? ==> heap[e].context.value in heap)
  }

  predicate Edge(heap: Heap, a: ErrorId, b: ErrorId) {
    a in heap && (heap[a].cause == Some(b) || heap[a].context == Some(b))
  }

  ghost predicate IsPath(heap: Heap, path: seq<ErrorId>) {
    path != [] && path[0] in heap && forall k: nat | k + 1 < |path| :: Edge(heap, path[k], path[k + 1])
  }

  ghost predicate Reaches(heap: Heap, a: ErrorId, b: ErrorId) {
    exists path :: IsPath(heap, path) && path[0] == a && path[|path| - 1] == b
  }

  lemma ReachesSelf(heap: Heap, a: ErrorId)
    requires a in heap
    ensures Reaches(heap, a, a)
  {
    assert IsPath(heap, [a]);
  }

  lemma ReachesOn(heap: Heap, a: ErrorId, b: ErrorId, c: ErrorId)
    requires Reaches(heap, a, b) && Edge(heap, b, c)
    ensures Reaches(heap, a, c)
  {
    var path :| IsPath(heap, path) && path[0] == a && path[|path| - 1] == b;
    var longer := path + [c];
    forall k: nat | k + 1 < |longer| ensures Edge(heap, longer[k], longer[k + 1]) {
      if k + 1 < |path| { assert Edge(heap, path[k], path[k + 1]); }
    }
    assert IsPath(heap, longer);
  }

  /** A set that holds the start and every edge out of itself holds everything reachable. */
  lemma {:induction false} ClosedSetHoldsPath(heap: Heap, path: seq<ErrorId>, seen: set<ErrorId>)
    requires IsPath(heap, path) && path[0] in seen
    requires forall a, b | a in seen && Edge(heap, a, b) :: b in seen
    ensures path[|path| - 1] in seen
    decreases |path|
  {
    if |path| > 1 {
      var front := path[..|path| - 1];
      forall k: nat | k + 1 < |front| ensures Edge(heap, front[k], front[k + 1]) {
        assert Edge(heap, path[k], path[k + 1]);
      }
      ClosedSetHoldsPath(heap, front, seen);
      assert Edge(heap, path[|path| - 2], path[|path| - 2 + 1]);
    }
  }

  /** Every error yet to be followed is on the worklist or has been seen. */
  ghost predicate Frontier(heap: Heap, seen: set<ErrorId>, pending: seq<ErrorId>) {
    forall a, b | a in seen && Edge(heap, a, b) :: b in seen || b in pending
  }

  ghost predicate AllReached(heap: Heap, error: ErrorId, ids: seq<ErrorId>) {
    forall e | e in ids :: e in heap && Reaches(heap, error, e)
  }

  function Nested(e: Error): seq<ErrorId> {
    (if e.cause.Some? then [e.cause.value] else []) + (if e.context.Some? then [e.context.value] else [])
  }

  lemma FrontierMoves(heap: Heap, seen: set<ErrorId>, rest: seq<ErrorId>, current: ErrorId)
    requires Frontier(heap, seen, rest + [current]) && current in heap
    ensures current in seen ==> Frontier(heap, seen, rest)
    ensures Frontier(heap, seen + {current}, rest + Nested(heap[current]))
  {
  }

  lemma ReachedMoves(heap: Heap, error: ErrorId, rest: seq<ErrorId>, current: ErrorId)
    requires Closed(heap) && AllReached(heap, error, rest + [current])
    ensures AllReached(heap, error, rest) && current in heap && Reaches(heap, error, current)
    ensures AllReached(heap, error, rest + Nested(heap[current]))
  {
    assert current in rest + [current];
    forall e | e in rest ensures e in rest + [current] {
    }
    forall e | e in Nested(heap[current]) ensures e in heap && Reaches(heap, error, e) {
      ReachesOn(heap, error, current, e);
    }
  }

  lemma SeenBounded(heap: Heap, seen: set<ErrorId>, e: ErrorId)
    requires seen <= heap.Keys && e in heap && e !in seen
    ensures |seen| < |heap.Keys|
  {
    var rest := heap.Keys - {e};
    assert seen <= rest;
    SubsetSize(seen, rest);
    assert heap.Keys == rest + {e};
  }

  /** `exception_chain`: each reachable error exactly once, whatever cycles the graph has. */
  method Walk(heap: Heap, error: ErrorId) returns (order: seq<ErrorId>)
    requires Closed(heap) && error in heap
    ensures NoDuplicates(order) && order != [] && order[0] == error
    ensures forall e :: e in order <==> Reaches(heap, error, e)
  {
    order := [];
    var pending, seen := [error], {};
    ReachesSelf(heap, error);
    while pending != []
      invariant seen <= heap.Keys && (forall e :: e in seen <==> e in order)
      invariant NoDuplicates(order)
      invariant AllReached(heap, error, pending) && AllReached(heap, error, order)
      invariant Frontier(heap, seen, pending)
      invariant if order == [] then pending == [error] else order[0] == error
      decreases |heap.Keys| - |seen|, |pending|
    {
      var current := pending[|pending| - 1];
      assert pending == pending[..|pending| - 1] + [current];
      pending := pending[..|pending| - 1];
      ReachedMoves(heap, error, pending, current);
      FrontierMoves(heap, seen, pending, current);
      if current in seen {
        continue;
      }
      SeenBounded(heap, seen, current);
      seen := seen + {current};
      order := order + [current];
      pending := pending + Nested(heap[current]);
    }
    forall e | Reaches(heap, error, e) ensures e in order {
      var path :| IsPath(heap, path) && path[0] == error && path[|path| - 1] == e;
      ClosedSetHoldsPath(heap, path, seen);
    }
  }

  predicate RetryableCode(e: Error) {
    e.state == Some("40P01") || e.state == Some("40001")
  }

  ghost predicate Retryable(heap: Heap, error: ErrorId) {
    exists e :: e in heap && Reaches(heap, error, e) && heap[e].state in {Some("40P01"), Some("40001")}
  }

  method IsRetryable(heap: Heap, error: ErrorId) returns (retryable: bool)
    requires Closed(heap) && error in heap
    ensures retryable <==> Retryable(heap, error)
  {
    var order := Walk(heap, error);
    for k := 0 to |order|
      invariant forall j | 0 <= j < k :: order[j] in heap ==> !RetryableCode(heap[order[j]])
    {
      assert order[k] in order;
      ReachedIsKnown(heap, error, order[k]);
      if RetryableCode(heap[order[k]]) {
        return true;
      }
    }
    return false;
  }

  lemma ReachedIsKnown(heap: Heap, error: ErrorId, e: ErrorId)
    requires Closed(heap) && Reaches(heap, error, e)
    ensures e in heap
  {
    var path :| IsPath(heap, path) && path[0] == error && path[|path| - 1] == e;
    if |path| > 1 {
      assert Edge(heap, path[|path| - 2], path[|path| - 2 + 1]);
    }
  }

  // ----- bounded replay -----

  const MAX_ATTEMPTS := 8

  datatype Outcome = Returned(value: int) | Raised(error: ErrorId)

  ghost predicate Replays(heap: Heap, o: Outcome) {
    o.Raised? && Retryable(heap, o.error)
  }

  /**
   Runs a unit until it returns, fails for good, or has failed eight times. `attempt` is what the unit does
   each time; the outcome of the last attempt is passed on unchanged.
   */
  method RetryUnit(heap: Heap, attempt: nat -> Outcome) returns (outcome: Outcome, attempts: nat)
    requires Closed(heap) && forall k :: attempt(k).Raised? ==> attempt(k).error in heap
    ensures 1 <= attempts <= 8 && outcome == attempt(attempts - 1)
    ensures forall k: nat | k + 1 < attempts :: Replays(heap, attempt(k))
    ensures attempts < 8 ==> !Replays(heap, outcome)
  {
    attempts := 0;
    while attempts < MAX_ATTEMPTS
      invariant attempts < MAX_ATTEMPTS
      invariant forall k: nat | k < attempts :: Replays(heap, attempt(k))
    {
      outcome := attempt(attempts);
      attempts := attempts + 1;
      if outcome.Returned? {
        return;
      }
      var again := IsRetryable(heap, outcome.error);
      if !again || attempts == MAX_ATTEMPTS {
        return;
      }
    }
  }
}
