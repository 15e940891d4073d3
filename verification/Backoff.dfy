/** Progressive backoff of repeated sign-in failures: the table the store writes, and what it guarantees. */
module Backoff {
  import opened Common

  const THRESHOLD: nat := 5
  const BASE_SECONDS: nat := 30
  const CAP_SECONDS: nat := 900
  const DECAY_SECONDS: nat := 3600
  const SECOND: nat := 1000000          // timestamps count microseconds

  datatype Row = Row(failures: nat, next: Option<Time>, updated: Time)

  function Pow2(n: nat): nat {
    if n == 0 then 1 else 2 * Pow2(n - 1)
  }

  /** Nothing below the threshold, then a delay that doubles up to the cap. */
  function BackoffSeconds(failures: nat): nat {
    if failures < THRESHOLD then 0
    else if BASE_SECONDS * Pow2(failures - THRESHOLD) < CAP_SECONDS then BASE_SECONDS * Pow2(failures - THRESHOLD)
    else CAP_SECONDS
  }

  predicate Decayed(row: Row, now: Time) {
    now >= row.updated + DECAY_SECONDS * SECOND
  }

  function Derived(failures: nat, updated: Time): Option<Time> {
    if BackoffSeconds(failures) == 0 then None else Some(updated + BackoffSeconds(failures) * SECOND)
  }

  /** A stored deadline, or the one derived after an interrupted write. */
  function NextAllowed(row: Row): Option<Time> {
    if row.next.Some? then row.next else Derived(row.failures, row.updated)
  }

  predicate Blocked(row: Row, now: Time) {
    !Decayed(row, now) && NextAllowed(row).Some? && now < NextAllowed(row).value
  }

  /** The stored deadline is the formula's deadline. */
  predicate Consistent(row: Row) {
    row.next == Derived(row.failures, row.updated)
  }

  // ----- the unrolled table -----

  function Deadline(i: nat, now: Time): Time {
    now + BackoffSeconds(THRESHOLD + i) * SECOND
  }

  function Deadlines(now: Time): (d: seq<Time>)
    ensures |d| == 7
  {
    seq(7, i requires 0 <= i < 7 => Deadline(i, now))
  }

  /** The nested CASE over the count before this failure. */
  function CaseDeadline(prior: nat, now: Time): Option<Time> {
    var d := Deadlines(now);
    if prior < THRESHOLD - 1 then None
    else if prior == THRESHOLD - 1 then Some(d[0])
    else if prior == THRESHOLD then Some(d[1])
    else if prior == THRESHOLD + 1 then Some(d[2])
    else if prior == THRESHOLD + 2 then Some(d[3])
    else if prior == THRESHOLD + 3 then Some(d[4])
    else if prior == THRESHOLD + 4 then Some(d[5])
    else Some(d[6])
  }

  lemma {:induction false} Pow2Grows(n: nat, m: nat)
    requires n <= m
    ensures Pow2(n) <= Pow2(m) && Pow2(n) >= 1
  {
    if n < m {
      Pow2Grows(n, m - 1);
    } else if n > 0 {
      Pow2Grows(n - 1, n - 1);
    }
  }

  lemma CappedFrom(failures: nat)
    requires failures >= THRESHOLD + 5
    ensures BackoffSeconds(failures) == CAP_SECONDS
  {
    Pow2Grows(5, failures - THRESHOLD);
    assert Pow2(5) == 32;
  }

  lemma PositiveFromThreshold(failures: nat)
    ensures BackoffSeconds(failures) == 0 <==> failures < THRESHOLD
    ensures BackoffSeconds(failures) <= CAP_SECONDS
  {
    if failures >= THRESHOLD {
      Pow2Grows(0, failures - THRESHOLD);
    }
  }

  /** The schedule: nothing for four failures, then half a minute doubling up to a quarter of an hour. */
  lemma BackoffSchedule(failures: nat)
    ensures failures <= 4 ==> BackoffSeconds(failures) == 0
    ensures 5 <= failures <= 9 ==> BackoffSeconds(failures) == [30, 60, 120, 240, 480][failures - 5]
    ensures failures >= 10 ==> BackoffSeconds(failures) == 900
  {
    if failures >= 10 {
      CappedFrom(failures);
    } else {
      assert Pow2(0) == 1 && Pow2(1) == 2 && Pow2(2) == 4 && Pow2(3) == 8 && Pow2(4) == 16;
    }
  }

  /** The table agrees with the capped exponential for every count, beyond its last line included. */
  lemma CaseEqualsFormula(prior: nat, now: Time)
    ensures CaseDeadline(prior, now) == Derived(prior + 1, now)
  {
    PositiveFromThreshold(prior + 1);
    if prior + 1 >= THRESHOLD + 6 {
      CappedFrom(prior + 1);
      CappedFrom(THRESHOLD + 6);
    }
  }

  function Failed(row: Option<Row>, now: Time): Row {
    if row.None? || Decayed(row.value, now) then Row(1, None, now)
    else Row(row.value.failures + 1, Derived(row.value.failures + 1, now), now)
  }

  lemma FailedIsConsistent(row: Option<Row>, now: Time)
    ensures Consistent(Failed(row, now))
  {
  }

  // ----- the store -----

  class Store {
    var rows: map<(string, string), Row>

    ghost predicate Valid()
      reads this
    {
      forall k | k in rows :: Consistent(rows[k])
    }

    constructor ()
      ensures Valid() && rows == map[]
    {
      rows := map[];
    }

    function Stored(scope: string, key: string): Option<Row>
      reads this
    {
      if (scope, key) in rows then Some(rows[(scope, key)]) else None
    }

    /** How long the caller must wait, in whole seconds rounded up; zero lets it through. */
    method Guard(scope: string, key: string, now: Time) returns (retryAfter: nat)
      ensures retryAfter > 0 <==> (scope, key) in rows && Blocked(rows[(scope, key)], now)
      ensures (scope, key) in rows ==> var row := rows[(scope, key)];
        var next := if row.next.Some? then row.next.value else row.updated + BackoffSeconds(row.failures) * 1000000;
        && (retryAfter > 0 <==>
              (row.next.Some? || row.failures >= 5) && now < row.updated + 3600 * 1000000 && now < next)
        && (retryAfter > 0 ==> (retryAfter - 1) * 1000000 < next - now <= retryAfter * 1000000)
    {
      var row := Stored(scope, key);
      if row.None? || Decayed(row.value, now) {
        return 0;
      }
      PositiveFromThreshold(row.value.failures);
      var next := NextAllowed(row.value);
      if next.Some? && now < next.value {
        return (next.value - now + SECOND - 1) / SECOND;
      }
      return 0;
    }

    /** Counts one failure with the unrolled table; the other keys are untouched. */
    method RecordFailure(scope: string, key: string, now: Time) returns (failures: nat, next: Option<Time>)
      requires Valid()
      modifies this
      ensures Valid()
      ensures rows == old(rows)[(scope, key) := Row(failures, next, now)] == old(rows)[(scope, key) := Failed(
        old(Stored(scope, key)), now)]
      ensures (scope, key) in old(rows) && now < old(rows)[(scope, key)].updated + 3600 * 1000000 ==>
        && failures == old(rows)[(scope, key)].failures + 1
        && next == if failures < 5 then None else Some(now + BackoffSeconds(failures) * 1000000)
      ensures (scope, key) !in old(rows) || old(rows)[(scope, key)].updated + 3600 * 1000000 <= now ==>
        failures == 1 && next == None
    {
      var row := Stored(scope, key);
      FailedIsConsistent(row, now);
      if row.Some? { PositiveFromThreshold(row.value.failures + 1); }
      if row.None? {
        failures, next := 1, None;
      } else {
        CaseEqualsFormula(row.value.failures, now);
        failures := if row.value.updated + DECAY_SECONDS * SECOND <= now then 1 else row.value.failures + 1;
        next := if row.value.updated + DECAY_SECONDS * SECOND <= now then None
          else CaseDeadline(row.value.failures, now);
      }
      rows := rows[(scope, key) := Row(failures, next, now)];
    }

    /** Forgets the key: it is not blocked at any time, and its next failure counts as the first. */
    method RecordSuccess(scope: string, key: string)
      requires Valid()
      modifies this
      ensures Valid() && rows == old(rows) - {(scope, key)}
      ensures forall now :: Failed(Stored(scope, key), now) == Row(1, None, now)
    {
      rows := rows - {(scope, key)};
    }
  }

  // ----- runs -----

  /** A deadline derived from the count equals the stored one, so losing the stored one changes nothing. */
  lemma StoredAndDerivedAgree(row: Row)
    requires Consistent(row)
    ensures NextAllowed(row) == row.next == NextAllowed(row.(next := None))
  {
  }

  function RowAfter(times: seq<Time>): Option<Row> {
    if times == [] then None else Some(Failed(RowAfter(times[..|times| - 1]), times[|times| - 1]))
  }

  /** The guard is asked between two failures, which are less than the decay apart. */
  predicate InOrder(times: seq<Time>, checks: seq<Time>, k: nat)
    requires |checks| == |times| && k + 1 < |times|
  {
    times[k] <= checks[k + 1] <= times[k + 1] < times[k] + DECAY_SECONDS * SECOND
  }

  /**
   Failures of one key, each let through by the guard at some moment after the previous one, with no decay between.
   */
  ghost predicate Guarded(times: seq<Time>, checks: seq<Time>) {
    && |checks| == |times|
    && (forall k: nat | k + 1 < |times| :: InOrder(times, checks, k))
    && (forall k: nat | 0 < k < |times| :: !Blocked(RowAfter(times[..k]).value, checks[k]))
  }

  function Total(n: nat): nat {
    if n == 0 then 0 else Total(n - 1) + BackoffSeconds(n)
  }

  lemma {:induction false} CountInRun(times: seq<Time>, checks: seq<Time>)
    requires Guarded(times, checks) && times != []
    ensures RowAfter(times) == Some(Row(|times|, Derived(|times|, times[|times| - 1]), times[|times| - 1]))
    decreases |times|
  {
    PositiveFromThreshold(1);
    if |times| > 1 {
      var n := |times| - 1;
      Prefix(times, checks, n);
      CountInRun(times[..n], checks[..n]);
      assert InOrder(times, checks, n - 1);
    }
  }

  lemma Prefix(times: seq<Time>, checks: seq<Time>, n: nat)
    requires Guarded(times, checks) && n <= |times|
    ensures Guarded(times[..n], checks[..n])
  {
    forall k: nat | 0 < k < n ensures !Blocked(RowAfter(times[..n][..k]).value, checks[..n][k]) {
      assert times[..n][..k] == times[..k];
    }
    forall k: nat | k + 1 < n ensures InOrder(times[..n], checks[..n], k) {
      assert InOrder(times, checks, k);
    }
  }

  /** The n-th failure comes no earlier than the first one plus all the backoffs in between. */
  lemma {:induction false} FailuresAreSpaced(times: seq<Time>, checks: seq<Time>)
    requires Guarded(times, checks) && times != []
    ensures times[|times| - 1] >= times[0] + Total(|times| - 1) * SECOND
    decreases |times|
  {
    var n := |times| - 1;
    if n > 0 {
      Prefix(times, checks, n);
      FailuresAreSpaced(times[..n], checks[..n]);
      CountInRun(times[..n], checks[..n]);
      PositiveFromThreshold(n);
      assert InOrder(times, checks, n - 1);
      assert !Blocked(RowAfter(times[..n]).value, checks[n]);
      assert times[n] >= times[n - 1] + BackoffSeconds(n) * SECOND;
    }
  }

  /** The total in closed form: guessing is limited to one attempt every fifteen minutes in the long run. */
  lemma {:induction false} TotalClosedForm(n: nat)
    requires n >= 9
    ensures Total(n) == 930 + (n - 9) * CAP_SECONDS
  {
    if n > 9 {
      TotalClosedForm(n - 1);
      CappedFrom(n);
    } else {
      assert BackoffSeconds(5) == 30 && BackoffSeconds(6) == 60 && BackoffSeconds(7) == 120 &&
        BackoffSeconds(8) == 240 && BackoffSeconds(9) == 480;
      assert Total(4) == 0;
    }
  }

  /** Below the threshold nobody waits: fewer than five failures in a row, at whatever times, never block. */
  lemma {:induction false} FewFailuresAreFree(times: seq<Time>, now: Time)
    requires 0 < |times| < THRESHOLD
    ensures RowAfter(times).value.failures <= |times| && Consistent(RowAfter(times).value)
    ensures !Blocked(RowAfter(times).value, now)
  {
    var front, last := times[..|times| - 1], times[|times| - 1];
    if front != [] {
      FewFailuresAreFree(front, now);
    }
    FailedIsConsistent(RowAfter(front), last);
    PositiveFromThreshold(RowAfter(times).value.failures);
  }
}
