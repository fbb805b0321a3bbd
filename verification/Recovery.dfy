/**
 The failure budget of an analytics worker: after each failed attempt it must stay idle long enough
 that failed work is at most one percent of elapsed time.
 */
module Recovery {
  import opened Wrappers

  const INITIAL_DELAY := 30
  const MAX_BACKOFF := 900
  const IDLE_COST := 99.0

  datatype Budget = Budget(failures: nat, retryAt: Option<real>)

  const FRESH := Budget(0, None)

  function PowerOfTwo(n: nat): nat {
    if n == 0 then 1 else 2 * PowerOfTwo(n - 1)
  }

  /** The backoff floor after the given number of failures in a row. */
  function Floor(failures: nat): nat {
    var doublings := if failures <= 1 then 0 else if failures <= 6 then failures - 1 else 5;
    var delay := INITIAL_DELAY * PowerOfTwo(doublings);
    if delay < MAX_BACKOFF then delay else MAX_BACKOFF
  }

  function Work(start: real, finish: real): real {
    if finish > start then finish - start else 0.0
  }

  function Failed(b: Budget, start: real, finish: real): Budget {
    var floor := Floor(b.failures + 1) as real;
    var cost := Work(start, finish) * IDLE_COST;
    Budget(b.failures + 1, Some(finish + if floor >= cost then floor else cost))
  }

  // ---------------------------------------------------------------- runs of polls

  /** A poll that began at `start`, and if it was let through, ended at `finish`; or accepted work. */
  datatype Event = Poll(start: real, finish: real) | Accepted

  /** The gate in front of every poll. */
  predicate Permits(b: Budget, start: real) {
    b.retryAt.None? || start >= b.retryAt.value
  }

  /** The budget, the failed work since the last acceptance, and when the first such attempt began. */
  datatype Ledger = Ledger(budget: Budget, work: real, since: Option<real>)

  function Step(l: Ledger, e: Event): Ledger {
    match e
    case Accepted => Ledger(FRESH, 0.0, None)
    case Poll(start, finish) =>
      if !Permits(l.budget, start) then l
      else Ledger(Failed(l.budget, start, finish), l.work + Work(start, finish),
                  if l.since.None? then Some(start) else l.since)
  }

  function Run(l: Ledger, events: seq<Event>): Ledger
    decreases |events|
  {
    if events == [] then l else Run(Step(l, events[0]), events[1..])
  }

  /** A poll never ends before it begins. */
  predicate Forward(e: Event) {
    e.Poll? ==> e.finish >= e.start
  }

  /** At most one percent of the time from the first failed attempt to the retry time was failed work. */
  predicate WithinBudget(l: Ledger) {
    && (l.since.Some? <==> l.budget.failures > 0) && (l.since.Some? <==> l.budget.retryAt.Some?)
    && (l.since.None? ==> l.work == 0.0)
    && (l.since.Some? ==> 100.0 * l.work <= l.budget.retryAt.value - l.since.value)
  }

  lemma StepWithinBudget(l: Ledger, e: Event)
    requires WithinBudget(l) && Forward(e)
    ensures WithinBudget(Step(l, e))
  {
    hide Floor;
  }

  /**
   Whatever polls are attempted, and whenever: failed work since the last acceptance stays within one
   percent of the time from its first attempt to the retry time.
   */
  lemma {:induction false} RunWithinBudget(l: Ledger, events: seq<Event>)
    requires WithinBudget(l) && forall i :: 0 <= i < |events| ==> Forward(events[i])
    ensures WithinBudget(Run(l, events))
    decreases |events|
  {
    hide WithinBudget, Step;
    if events != [] {
      StepWithinBudget(l, events[0]);
      RunWithinBudget(Step(l, events[0]), events[1..]);
    }
  }

  lemma {:induction false} FloorGrowsAndIsCapped(failures: nat, more: nat)
    requires 1 <= failures <= more
    ensures INITIAL_DELAY <= Floor(failures) <= Floor(more) <= MAX_BACKOFF
    ensures failures >= 6 ==> Floor(failures) == MAX_BACKOFF
    decreases more
  {
    assert PowerOfTwo(5) == 32 && PowerOfTwo(4) == 16 && PowerOfTwo(3) == 8 && PowerOfTwo(2) == 4 && PowerOfTwo(1) == 2;
    if failures < more {
      FloorGrowsAndIsCapped(failures, more - 1);
    }
  }

  /** The floor starts at 30 seconds and doubles with each failure in a row until the cap. */
  lemma {:induction false} FloorDoubles(failures: nat)
    requires failures >= 1
    ensures Floor(1) == 30
    ensures Floor(failures + 1) == if 2 * Floor(failures) <= 900 then 2 * Floor(failures) else 900
  {
    assert PowerOfTwo(5) == 32 && PowerOfTwo(4) == 16 && PowerOfTwo(3) == 8 && PowerOfTwo(2) == 4 && PowerOfTwo(1) == 2;
  }

  /** The retry time is the earliest that leaves the floor and ninety-nine times the attempt's cost idle. */
  lemma {:induction false} RetryIsEarliest(b: Budget, start: real, finish: real, at: real)
    requires finish >= start
    ensures var r := Failed(b, start, finish);
            && r.failures == b.failures + 1
            && (Permits(r, at) <==>
                  at - finish >= Floor(r.failures) as real && at - finish >= 99.0 * (finish - start))
  {
    hide Floor;
  }

  /** Between acceptances the number of failures, and with it the floor of the idle time, only grows. */
  lemma {:induction false} FailuresGrow(l: Ledger, events: seq<Event>)
    requires forall i :: 0 <= i < |events| ==> !events[i].Accepted?
    ensures Run(l, events).budget.failures >= l.budget.failures
    decreases |events|
  {
    if events != [] {
      FailuresGrow(Step(l, events[0]), events[1..]);
    }
  }

  class AnalyticsRecoveryBudget {
    var failures: nat
    var retryAt: Option<real>

    function Model(): Budget
      reads this
    {
      Budget(failures, retryAt)
    }

    constructor ()
      ensures Model() == FRESH
    {
      failures, retryAt := 0, None;
    }

    /** The retry time leaves at least the floor and at least 99 times the attempt's cost idle. */
    method RecordFailure(start: real, finish: real)
      modifies this
      ensures Model() == Failed(old(Model()), start, finish)
      ensures retryAt.Some? && retryAt.value >= finish + Floor(failures) as real
      ensures finish >= start ==> 100.0 * (finish - start) <= retryAt.value - start
    {
      failures := failures + 1;
      var doublings := if failures - 1 < 5 then failures - 1 else 5;
      var delay := INITIAL_DELAY * PowerOfTwo(doublings);
      var floor := (if delay < MAX_BACKOFF then delay else MAX_BACKOFF) as real;
      var cost := (if finish > start then finish - start else 0.0) * IDLE_COST;
      retryAt := Some(finish + if floor >= cost then floor else cost);
    }

    method Accept()
      modifies this
      ensures Model() == FRESH
    {
      failures, retryAt := 0, None;
    }

    /** The gate of a poll: whether it must wait. */
    method MustWait(start: real) returns (wait: bool)
      ensures wait == !Permits(Model(), start)
    {
      return retryAt.Some? && start < retryAt.value;
    }
  }
}
