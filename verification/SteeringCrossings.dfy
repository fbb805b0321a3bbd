/**
 What the steering controller does, not only what it refrains from: exactly when a crossing is armed,
 that a due crossing is always pending, and that a pending attempt can be admitted.
 */
module SteeringCrossings {
  import opened Wrappers
  import opened Steering

  // ---------------------------------------------------------------- armed, exactly

  /** What uses up an armed crossing: an admitted steer, a given-up attempt, a compaction. */
  predicate Disarms(s: State, e: Event, limit: real) {
    || (e.Admit? && Admissible(s, e.final, limit))
    || (e.CompactionStarted? && Accepts(s, e.thread, e.connection))
    || (e.Finish? && e.attempt.generation == s.generation && s.pending == Some(e.attempt)
        && !Retries(s, e.attempt, e.request, e.outcome))
  }

  /** After every section: an armed crossing stays armed unless used up, a used one is armed by a re-arm alone. */
  lemma {:induction false} ArmedExactly(s: State, e: Event, limit: real)
    requires Consistent(s, limit)
    ensures Step(s, e, limit).armed <==> if s.armed then !Disarms(s, e, limit) else IsRearm(s, e, limit)
  {
    hide Schedulable;
    ScheduledKeepsArmed(s, limit);
    match e
    case BindRoot(thread) =>
      var bound := s.(registered := Some(thread), ready := s.root == Some(thread) && s.connection.Some?);
      ScheduledKeepsArmed(if bound.ready then bound else Cleared(bound), limit);
    case TurnStarted(_, _, started) =>
      ScheduledKeepsArmed((if s.turn.Some? && s.turn != started then Cleared(s) else s).(turn := started), limit);
    case Percent(_, _, value) => ScheduledKeepsArmed(s.(percent := Some(value)), limit);
    case Finish(attempt, request, outcome) => FinishKeepsArmed(s, attempt, request, outcome, limit);
    case _ =>
  }

  lemma ScheduledKeepsArmed(s: State, limit: real)
    ensures Scheduled(s, limit).armed == s.armed && Scheduled(s, limit).turn == s.turn
    ensures Scheduled(s, limit).ready == s.ready && Scheduled(s, limit).percent == s.percent
    ensures Scheduled(s, limit).compacting == s.compacting && Scheduled(s, limit).retries == s.retries
  {}

  lemma FinishKeepsArmed(s: State, attempt: Attempt, request: nat, outcome: Outcome, limit: real)
    requires Consistent(s, limit)
    ensures AfterFinish(s, attempt, request, outcome, limit).armed
       <==> s.armed && !Disarms(s, Finish(attempt, request, outcome), limit)
  {
    hide Schedulable;
    var popped := s.(requests := s.requests - {request}, admitted := s.admitted - {request});
    ScheduledKeepsArmed(Cleared(popped).(retries := s.retries + 1), limit);
  }

  /** Over a run: armed at one point and never used up since, still armed. */
  lemma {:induction false} StaysArmed(events: seq<Event>, i: nat, j: nat, limit: real)
    requires i <= j <= |events| && After(events, i, limit).armed
    requires forall k :: i <= k < j ==> !Disarms(After(events, k, limit), events[k], limit)
    ensures After(events, j, limit).armed
    decreases j
  {
    hide Disarms, Step;
    if i < j {
      StaysArmed(events, i, j - 1, limit);
      RunConsistent(events, j - 1, limit);
      ArmedExactly(After(events, j - 1, limit), events[j - 1], limit);
    }
  }

  // ---------------------------------------------------------------- a due crossing is pending

  /** Nothing that could be scheduled is left unscheduled, and no usage is known during a compaction. */
  predicate Prompt(s: State, limit: real) {
    !Schedulable(s, limit) && (s.compacting != {} ==> s.percent.None?)
  }

  lemma ScheduledPrompt(s: State, limit: real)
    requires s.compacting != {} ==> s.percent.None?
    ensures Prompt(Scheduled(s, limit), limit)
  {}

  lemma FinishPrompt(s: State, attempt: Attempt, request: nat, outcome: Outcome, limit: real)
    requires Consistent(s, limit) && Prompt(s, limit)
    ensures Prompt(AfterFinish(s, attempt, request, outcome, limit), limit)
  {
    hide Scheduled;
    var popped := s.(requests := s.requests - {request}, admitted := s.admitted - {request});
    ScheduledPrompt(Cleared(popped).(retries := s.retries + 1), limit);
  }

  lemma BindRootPrompt(s: State, thread: Id, limit: real)
    requires Consistent(s, limit) && Prompt(s, limit)
    ensures Prompt(AfterBindRoot(s, thread, limit), limit)
  {
    hide Scheduled;
    var bound := s.(registered := Some(thread), ready := s.root == Some(thread) && s.connection.Some?);
    ScheduledPrompt(if bound.ready then bound else Cleared(bound), limit);
  }

  lemma TurnStartedPrompt(s: State, started: Option<Id>, limit: real)
    requires Consistent(s, limit) && Prompt(s, limit)
    ensures Prompt(AfterTurnStarted(s, started, limit), limit)
  {
    hide Scheduled;
    ScheduledPrompt((if s.turn.Some? && s.turn != started then Cleared(s) else s).(turn := started), limit);
  }

  lemma PercentPrompt(s: State, value: real, limit: real)
    requires Consistent(s, limit) && Prompt(s, limit)
    ensures Prompt(AfterPercent(s, value, limit), limit)
  {
    hide Scheduled;
    if s.compacting == {} {
      ScheduledPrompt(s.(percent := Some(value)), limit);
    }
  }

  /** Every section leaves a due crossing pending, except the report that a timer could not start. */
  lemma {:induction false} StepPrompt(s: State, e: Event, limit: real)
    requires Consistent(s, limit) && Prompt(s, limit) && !e.StartFailed?
    ensures Prompt(Step(s, e, limit), limit)
  {
    hide AfterBindRoot, AfterTurnStarted, AfterPercent, AfterFinish;
    match e
    case BindRoot(thread) => BindRootPrompt(s, thread, limit);
    case TurnStarted(_, _, started) => TurnStartedPrompt(s, started, limit);
    case Percent(_, _, value) => PercentPrompt(s, value, limit);
    case Finish(attempt, request, outcome) => FinishPrompt(s, attempt, request, outcome, limit);
    case _ =>
  }

  predicate CrossingDue(s: State, limit: real) {
    && !s.closed && s.ready && s.turn.Some? && s.armed && s.compacting == {}
    && s.percent.Some? && s.percent.value >= limit
  }

  /**
   In every run in which timers start: whenever the crossing is armed, the controller bound, a turn
   running with usage at or above the threshold and no compaction under way, an attempt is pending.
   */
  lemma {:induction false} DueIsPending(events: seq<Event>, n: nat, limit: real)
    requires n <= |events| && forall k :: 0 <= k < n ==> !events[k].StartFailed?
    ensures Prompt(After(events, n, limit), limit)
    ensures CrossingDue(After(events, n, limit), limit) ==> After(events, n, limit).pending.Some?
    decreases n
  {
    hide Step;
    if n > 0 {
      DueIsPending(events, n - 1, limit);
      RunConsistent(events, n - 1, limit);
      StepPrompt(After(events, n - 1, limit), events[n - 1], limit);
    }
    RunConsistent(events, n, limit);
  }

  /** The controller is ready exactly when it is connected and its main thread is the registered one. */
  predicate ReadyExactly(s: State) {
    s.ready <==> s.connection.Some? && s.root.Some? && s.root == s.registered
  }

  lemma {:induction false} StepReady(s: State, e: Event, limit: real)
    requires ReadyExactly(s)
    ensures ReadyExactly(Step(s, e, limit))
  {
    hide Schedulable;
  }

  lemma {:induction false} RunReady(events: seq<Event>, n: nat, limit: real)
    requires n <= |events|
    ensures ReadyExactly(After(events, n, limit))
    decreases n
  {
    hide Step;
    if n > 0 {
      RunReady(events, n - 1, limit);
      StepReady(After(events, n - 1, limit), events[n - 1], limit);
    }
  }

  // ---------------------------------------------------------------- from one crossing to the next

  /** A reading below the threshold arms, clears and resets; the next one at or above it is a new attempt. */
  lemma {:induction false} LowThenHigh(s: State, thread: Id, c: Option<Id>, low: real, high: real, limit: real)
    requires Consistent(s, limit) && Accepts(s, thread, c) && s.ready && s.turn.Some? && s.compacting == {}
    requires low < limit <= high
    ensures var t := Step(s, Percent(thread, c, low), limit);
            var u := Step(t, Percent(thread, c, high), limit);
            && t.armed && t.pending.None? && t.timer.None? && t.retries == 0
            && u.pending == Some(Attempt(thread, s.turn.value, high, u.generation)) && u.timer == Some(u.generation)
            && u.generation > s.generation
  {}

  /**
   Over a run: after a steer was admitted, an accepted reading below the threshold and, with nothing
   using the crossing up in between, an accepted one at or above it leave an attempt pending.
   */
  lemma {:induction false} NextCrossingIsPending(events: seq<Event>, i: nat, j: nat, k: nat, limit: real)
    requires i < j < k < |events| && AdmitsAt(events, i, limit)
    requires forall n :: 0 <= n <= k ==> !events[n].StartFailed?
    requires forall n :: j < n < k ==> !Disarms(After(events, n, limit), events[n], limit)
    requires events[j].Percent? && events[j].value < limit
    requires Accepts(After(events, j, limit), events[j].thread, events[j].connection)
    requires After(events, j, limit).compacting == {}
    requires events[k].Percent? && events[k].value >= limit
    requires var s := After(events, k, limit);
             Accepts(s, events[k].thread, events[k].connection) && s.ready && s.turn.Some? && s.compacting == {}
    ensures After(events, k + 1, limit).pending.Some?
  {
    hide Disarms, Schedulable, Scheduled, AdmitsAt;
    RunConsistent(events, j, limit);
    ArmedExactly(After(events, j, limit), events[j], limit);
    LowArms(After(events, j, limit), events[j], limit);
    StaysArmed(events, j + 1, k, limit);
    HighSchedules(events, k, limit);
  }

  lemma LowArms(s: State, e: Event, limit: real)
    requires e.Percent? && e.value < limit && Accepts(s, e.thread, e.connection) && s.compacting == {}
    ensures Step(s, e, limit).armed
  {}

  lemma HighSchedules(events: seq<Event>, k: nat, limit: real)
    requires k < |events| && forall n :: 0 <= n <= k ==> !events[n].StartFailed?
    requires events[k].Percent? && events[k].value >= limit
    requires var s := After(events, k, limit);
             && Accepts(s, events[k].thread, events[k].connection) && s.ready && s.turn.Some? && s.compacting == {}
             && s.armed
    ensures After(events, k + 1, limit).pending.Some?
  {
    hide Schedulable;
    var s := After(events, k, limit);
    ScheduledKeepsArmed(s.(percent := Some(events[k].value)), limit);
    HighKeeps(s, events[k], limit);
    DueIsPending(events, k + 1, limit);
  }

  lemma HighKeeps(s: State, e: Event, limit: real)
    requires e.Percent? && e.value >= limit && Accepts(s, e.thread, e.connection) && s.compacting == {}
    ensures var t := Step(s, e, limit);
            && t.closed == s.closed && t.ready == s.ready && t.turn == s.turn && t.percent == Some(e.value)
            && t.armed == s.armed && t.compacting == {}
  {}

  /** A pending attempt whose timer fires and whose faithful request is registered is admitted. */
  lemma {:induction false} PendingIsAdmitted(s: State, request: nat, limit: real)
    requires Consistent(s, limit) && s.pending.Some? && s.timer.Some?
    ensures var a := s.pending.value;
            var t := Step(Step(s, TimerFired(a.generation), limit), Register(a, request), limit);
            var r := Request(request, true, true, a.thread, a.turn, a.generation, true);
            && t.pending == s.pending && Admissible(t, r, limit)
            && request in Step(t, Admit(r), limit).admitted && request !in Step(t, Admit(r), limit).requests
            && !Step(t, Admit(r), limit).armed && Step(t, Admit(r), limit).pending.None?
  {}

  /** A refused binding within the budget is tried again at once, for the same turn. */
  lemma {:induction false} RetrySchedules(s: State, request: nat, limit: real)
    requires Consistent(s, limit) && s.pending.Some? && request !in s.admitted && s.retries < BINDING_RETRIES
    ensures var t := Step(s, Finish(s.pending.value, request, RejectedUnbound), limit);
            && t.pending.Some? && t.pending.value.turn == s.pending.value.turn && t.timer == Some(t.generation)
            && t.generation > s.generation && t.retries == s.retries + 1 && t.armed
  {}

  /** A finished dispatch that was admitted and completed is remembered; its registration is gone either way. */
  lemma {:induction false} FinishSettles(s: State, attempt: Attempt, request: nat, outcome: Outcome, limit: real)
    ensures var t := Step(s, Finish(attempt, request, outcome), limit);
            && request !in t.requests && request !in t.admitted
            && t.lastCompleted
               == (if request in s.admitted && outcome.Completed? then Some(attempt) else s.lastCompleted)
            && (forall q :: q != request ==>
                  (q in t.admitted <==> q in s.admitted) && (q in t.requests <==> q in s.requests))
  {
    hide Schedulable;
  }

  /** Which turn is running: the last accepted start, until its end, an inactive thread or a lost binding. */
  lemma {:induction false} TurnFollows(s: State, e: Event, limit: real)
    ensures Step(s, e, limit).turn ==
      if e.TurnStarted? && Accepts(s, e.thread, e.connection) && e.started.Some? then e.started
      else if e.TurnCompleted? && Accepts(s, e.thread, e.connection) && e.completed == s.turn then None
      else if e.StatusChanged? && Accepts(s, e.thread, e.connection) && e.inactive then None
      else if e.BindPrimary? && !s.closed && (e.primary != s.root || e.connection != s.connection) then None
      else if e.Disconnect? && !s.closed then None
      else if e.Close? && !s.closed then None
      else s.turn
  {
    hide Schedulable;
  }

  /** Which compactions are under way: begun and not ended, for the turn that is running. */
  lemma {:induction false} CompactionFollows(s: State, e: Event, limit: real)
    requires e.CompactionStarted? || e.CompactionCompleted?
    ensures var t := Step(s, e, limit);
            && (!Accepts(s, e.thread, e.connection) ==> t == s)
            && (Accepts(s, e.thread, e.connection) && e.CompactionStarted? ==>
                  t.compacting == s.compacting + {e.item} && t.percent.None? && !t.armed && t.pending.None?)
            && (Accepts(s, e.thread, e.connection) && e.CompactionCompleted? ==>
                  t == s.(compacting := s.compacting - {e.item}))
  {}

  predicate FromProtocol(e: Event) {
    || e.TurnStarted? || e.TurnCompleted? || e.StatusChanged? || e.CompactionStarted? || e.CompactionCompleted?
    || e.Percent?
  }

  /** The event concerns the thread and connection the controller is bound to. */
  predicate Concerns(e: Event, s: State) {
    && FromProtocol(e) && !s.closed
    && e.connection.Some? && s.connection == e.connection && s.root == Some(e.thread)
  }

  /** Nothing from another thread, another connection or no connection, and nothing after the close, has any effect. */
  lemma {:induction false} StrangersIgnored(s: State, e: Event, limit: real)
    requires FromProtocol(e) && !Concerns(e, s)
    ensures Step(s, e, limit) == s
  {
    hide Schedulable;
  }

  /** What usage is known: the last reading outside a compaction, until one begins or the binding is lost. */
  lemma {:induction false} UsageFollows(s: State, e: Event, limit: real)
    ensures Step(s, e, limit).percent ==
      if e.Percent? && Concerns(e, s) && s.compacting == {} then Some(e.value)
      else if e.CompactionStarted? && Concerns(e, s) then None
      else if e.BindPrimary? && !s.closed && (e.primary != s.root || e.connection != s.connection) then None
      else if (e.Disconnect? || e.Close?) && !s.closed then None
      else s.percent
  {
    hide Schedulable;
  }

  /** How many binding retries are used: reset by a low reading or a new binding, raised by a retry alone. */
  lemma {:induction false} RetriesFollow(s: State, e: Event, limit: real)
    ensures Step(s, e, limit).retries ==
      if e.Percent? && Concerns(e, s) && s.compacting == {} && e.value < limit then 0
      else if e.BindPrimary? && !s.closed && (e.primary != s.root || e.connection != s.connection) then 0
      else if e.Finish? && Retries(s, e.attempt, e.request, e.outcome) then s.retries + 1
      else s.retries
  {
    hide Schedulable;
  }

  /** The compactions under way end one by one, or with their turn, its thread's activity or the binding. */
  lemma {:induction false} CompactionsFollow(s: State, e: Event, limit: real)
    ensures Step(s, e, limit).compacting ==
      if e.CompactionStarted? && Concerns(e, s) then s.compacting + {e.item}
      else if e.CompactionCompleted? && Concerns(e, s) then s.compacting - {e.item}
      else if e.TurnCompleted? && Concerns(e, s) && (s.turn.None? || e.completed == s.turn) then {}
      else if e.StatusChanged? && Concerns(e, s) && e.inactive then {}
      else if e.BindPrimary? && !s.closed && (e.primary != s.root || e.connection != s.connection) then {}
      else if (e.Disconnect? || e.Close?) && !s.closed then {}
      else s.compacting
  {
    hide Schedulable;
  }

  predicate SameBinding(s: State, t: State) {
    t.registered == s.registered && t.root == s.root && t.connection == s.connection && t.closed == s.closed
  }

  lemma ScheduledSameBinding(s: State, limit: real)
    ensures SameBinding(s, Scheduled(s, limit))
  {
    hide Schedulable;
  }

  lemma TurnSameBinding(s: State, started: Option<Id>, limit: real)
    ensures SameBinding(s, AfterTurnStarted(s, started, limit))
  {
    hide Scheduled;
    ScheduledSameBinding((if s.turn.Some? && s.turn != started then Cleared(s) else s).(turn := started), limit);
  }

  lemma PercentSameBinding(s: State, value: real, limit: real)
    ensures SameBinding(s, AfterPercent(s, value, limit))
  {
    hide Scheduled;
    ScheduledSameBinding(s.(percent := Some(value)), limit);
  }

  lemma AdmitSameBinding(s: State, r: Request, limit: real)
    ensures SameBinding(s, AfterAdmit(s, r, limit))
  {
    hide Admissible;
  }

  lemma FinishSameBinding(s: State, attempt: Attempt, request: nat, outcome: Outcome, limit: real)
    ensures SameBinding(s, AfterFinish(s, attempt, request, outcome, limit))
  {
    hide Scheduled, Retries;
    var popped := s.(requests := s.requests - {request}, admitted := s.admitted - {request},
                     lastCompleted := if request in s.admitted && outcome.Completed? then Some(attempt)
                                      else s.lastCompleted);
    ScheduledSameBinding(Cleared(popped).(retries := s.retries + 1), limit);
  }

  lemma OthersSameBinding(s: State, e: Event, limit: real)
    requires !e.BindRoot? && !e.BindPrimary? && !e.Disconnect? && !e.Close?
    ensures SameBinding(s, Step(s, e, limit))
  {
    hide AfterTurnStarted, AfterPercent, AfterAdmit, AfterFinish, Accepts, Fires;
    match e
    case TurnStarted(_, _, started) => TurnSameBinding(s, started, limit);
    case Percent(_, _, value) => PercentSameBinding(s, value, limit);
    case Admit(final) => AdmitSameBinding(s, final, limit);
    case Finish(attempt, request, outcome) => FinishSameBinding(s, attempt, request, outcome, limit);
    case _ =>
  }

  /** What the controller is bound to after every section; a close is for good. */
  lemma {:induction false} BindingFollows(s: State, e: Event, limit: real)
    ensures var t := Step(s, e, limit);
            && t.registered == (if e.BindRoot? && !s.closed then Some(e.thread) else s.registered)
            && t.root == (if e.BindPrimary? && !s.closed then e.primary
                          else if e.Disconnect? && !s.closed then None else s.root)
            && t.connection == (if e.BindPrimary? && !s.closed then e.connection
                                else if e.Disconnect? && !s.closed then None else s.connection)
            && (t.closed <==> s.closed || e.Close?)
  {
    hide Scheduled, AfterTurnStarted, AfterPercent, AfterAdmit, AfterFinish, Accepts, Fires;
    if e.BindRoot? {
      var bound := s.(registered := Some(e.thread), ready := s.root == Some(e.thread) && s.connection.Some?);
      ScheduledSameBinding(if bound.ready then bound else Cleared(bound), limit);
    } else if !e.BindPrimary? && !e.Disconnect? && !e.Close? {
      OthersSameBinding(s, e, limit);
    }
  }

  /** A timer fires once, for its own attempt only, which stays pending. */
  lemma {:induction false} TimerFiresOnce(s: State, generation: nat, limit: real)
    requires Consistent(s, limit)
    ensures Step(s, TimerFired(generation), limit)
         == if s.timer == Some(generation) then s.(timer := None) else s
  {}

  /** An attempt that is no longer pending is of an old generation: its callbacks and requests are inert for good. */
  lemma {:induction false} CancelledIsStale(s: State, e: Event, limit: real)
    requires Consistent(s, limit)
    ensures Step(s, e, limit).pending != s.pending ==> Step(s, e, limit).generation > s.generation
  {
    hide Schedulable;
  }

  /** A pending attempt is dropped exactly when its turn, its binding or the crossing is over, or it is settled. */
  lemma {:induction false} PendingDropped(s: State, e: Event, limit: real)
    requires Consistent(s, limit) && s.pending.Some? && s.registered == s.root
    ensures Step(s, e, limit).pending != s.pending <==>
      || (e.BindRoot? && s.root != Some(e.thread))
      || (e.BindPrimary? && (e.primary != s.root || e.connection != s.connection))
      || (e.TurnStarted? && Concerns(e, s) && e.started.Some? && e.started != s.turn)
      || (e.TurnCompleted? && Concerns(e, s) && e.completed == s.turn)
      || (e.StatusChanged? && Concerns(e, s) && e.inactive)
      || (e.CompactionStarted? && Concerns(e, s))
      || (e.Percent? && Concerns(e, s) && e.value < limit)
      || (e.Admit? && Admissible(s, e.final, limit))
      || (e.Finish? && s.pending == Some(e.attempt))
      || (e.StartFailed? && s.timer == Some(e.generation))
      || e.Disconnect? || e.Close?
  {}
}
