/**
 When the coordinator acts: exactly when an entry falls due, that waiting work always has a deadline,
 and what a retirement, a retry and a failed start come to.
 */
module CoordinatorTiming {
  import opened Wrappers
  import opened Coordinator
  import opened CoordinatorProofs

  /** An entry the worker may dispatch: activated, not disabled, not about to be retired. */
  predicate Dispatchable(e: Entry, now: Time) {
    e.config.Some? && !e.disabled && !Retirable(e, now)
  }

  /** Exactly when a dispatchable entry falls due. */
  lemma {:induction false} DueExactly(e: Entry, now: Time)
    requires Dispatchable(e, now)
    ensures e.nextRetry.Some? ==> (Due(e, now) <==> now >= e.nextRetry.value)
    ensures e.nextRetry.None? && e.worker.None? ==> Due(e, now)
    ensures e.nextRetry.None? && e.worker.Some? && e.full && e.firstDirty.Some? ==>
      (Due(e, now) <==> now >= e.firstDirty.value)
    ensures e.nextRetry.None? && e.worker.Some? && !e.full && e.firstDirty.Some? && e.lastDirty.Some? ==>
      (Due(e, now) <==> now >= e.lastDirty.value + QUIET || now >= e.firstDirty.value + MAX_BATCH)
    ensures e.nextRetry.None? && e.worker.Some? && e.firstDirty.None? ==> !Due(e, now)
  {}

  // ---------------------------------------------------------------- waiting work has a deadline

  predicate Waiting(e: Entry) {
    e.threads != {} || e.events != [] || e.full
  }

  predicate Timed(e: Entry) {
    e.nextRetry.Some? || (e.firstDirty.Some? && e.lastDirty.Some?)
  }

  /** The sections between a selection and its capture, and between a failed poll and its record. */
  predicate InHand(c: Coordinator, r: Id) {
    (c.phase.Selected? || c.phase.Failing?) && c.phase.runtime == r
  }

  /** Waiting work of a built worker has a time, unless the worker thread holds the entry right now. */
  predicate TimedId(c: Coordinator, r: Id) {
    r in c.entries && !InHand(c, r) && c.entries[r].worker.Some? && Waiting(c.entries[r]) ==> Timed(c.entries[r])
  }

  lemma RecordedTimed(e: Entry, thread: Thread, event: Event, now: Time)
    ensures var d := Recorded(e, thread, event, now);
            d.worker == e.worker && (d == e || (d.firstDirty.Some? && d.lastDirty.Some?))
  {}

  /** The dirty times are the same, and nothing waits anew without a retry. */
  predicate SameTimes(e: Entry, d: Entry) {
    && d.firstDirty == e.firstDirty && d.lastDirty == e.lastDirty && d.starts == e.starts
    && (Waiting(d) ==> Waiting(e) || d.nextRetry.Some?)
  }

  lemma RetirementKeepsTimes(e: Entry, result: PollResult, now: Time)
    requires e.deadline.Some? && e.settleAt.Some?
    ensures SameTimes(e, RetirementScheduled(e, result, now))
  {
    hide Min, Max;
  }

  lemma RetryKeepsTimes(e: Entry, until: Time, delay: Time, now: Time)
    ensures SameTimes(e, RetryScheduled(e, until, delay, now))
  {
    hide Min;
  }

  lemma DelaysKeepTimes(e: Entry, next: Option<Time>, deadline: Option<Time>, delay: Time)
    ensures SameTimes(e, e.(nextRetry := next, retryDeadline := deadline))
    ensures SameTimes(e, e.(nextRetry := next, retryDeadline := deadline, retryDelay := delay))
  {}

  lemma TimesTimed(e: Entry, d: Entry)
    requires SameTimes(e.(starts := 0), d) && (Waiting(e) ==> e.firstDirty.Some? && e.lastDirty.Some?)
    ensures Waiting(d) ==> Timed(d)
  {}

  lemma ScheduledTimed(e: Entry, result: PollResult, wake: Option<Time>, startedAt: Time, now: Time)
    requires Waiting(e) ==> e.firstDirty.Some? && e.lastDirty.Some?
    ensures Waiting(Scheduled(e, result, wake, startedAt, now)) ==> Timed(Scheduled(e, result, wake, startedAt, now))
  {
    hide Scheduled, SameTimes;
    ScheduledKeepsTimes(e, result, wake, startedAt, now);
    TimesTimed(e, Scheduled(e, result, wake, startedAt, now));
  }

  lemma ScheduledKeepsTimes(e: Entry, result: PollResult, wake: Option<Time>, startedAt: Time, now: Time)
    ensures SameTimes(e.(starts := 0), Scheduled(e, result, wake, startedAt, now))
  {
    hide Min, Max, Retries, RetirementScheduled, RetryScheduled, SameTimes;
    var s, d := e.(starts := 0), Scheduled(e, result, wake, startedAt, now);
    DelaysKeepTimes(s, d.nextRetry, None, RETRY_INITIAL);
    if e.deadline.Some? && e.settleAt.Some? {
      RetirementKeepsTimes(s, result, now);
    }
    if e.retryDeadline.Some? {
      RetryKeepsTimes(s, e.retryDeadline.value, e.retryDelay, now);
    } else {
      RetryKeepsTimes(s, Max(now, startedAt) + MAX_RETRY_WINDOW, RETRY_INITIAL, now);
    }
  }

  /** While a poll is in flight whatever waits has come since, and carries its times. */
  predicate FlightTimed(c: Coordinator, r: Id) {
    r in c.entries && c.phase.Polling? && c.phase.flight.runtime == r && Waiting(c.entries[r]) ==>
      c.entries[r].firstDirty.Some? && c.entries[r].lastDirty.Some?
  }

  lemma {:induction false} ProducersTimed(c: Coordinator, s: Step, r: Id)
    requires Enabled(c, s) && TimedId(c, r) && FlightTimed(c, r)
    requires s.Reserve? || s.Activate? || s.Observe? || s.Retire? || s.Close?
    ensures TimedId(Apply(c, s), r) && FlightTimed(Apply(c, s), r)
  {
    hide Recorded;
    if s.Observe? && r in c.entries {
      RecordedTimed(c.entries[r], s.thread, s.event, s.now);
    }
  }

  lemma {:induction false} WorkerTimed(c: Coordinator, s: Step, r: Id)
    requires Enabled(c, s) && TimedId(c, r) && FlightTimed(c, r)
    requires s.Select? || s.StartWorker? || s.Capture? || s.PollRaises? || s.RecordFailure?
    ensures TimedId(Apply(c, s), r) && FlightTimed(Apply(c, s), r)
  {
    hide EntryDeadline;
  }

  lemma {:induction false} ReturnTimed(c: Coordinator, s: Step, r: Id)
    requires Enabled(c, s) && TimedId(c, r) && FlightTimed(c, r) && s.PollReturns?
    ensures TimedId(Apply(c, s), r) && FlightTimed(Apply(c, s), r)
  {
    hide Scheduled;
    var f := c.phase.flight;
    if f.runtime == r {
      ScheduledTimed(Attested(c.entries[r], f, s.result), s.result, s.wake, f.startedAt, s.now);
    }
  }

  lemma {:induction false} RunTimed(c: Coordinator, steps: seq<Step>, r: Id)
    requires Runnable(c, steps) && TimedId(c, r) && FlightTimed(c, r)
    ensures TimedId(Run(c, steps), r) && FlightTimed(Run(c, steps), r)
    decreases |steps|
  {
    hide TimedId, FlightTimed, Apply, Enabled;
    if steps != [] {
      var s := steps[0];
      if s.PollReturns? {
        ReturnTimed(c, s, r);
      } else if s.Reserve? || s.Activate? || s.Observe? || s.Retire? || s.Close? {
        ProducersTimed(c, s, r);
      } else {
        WorkerTimed(c, s, r);
      }
      RunTimed(Apply(c, s), steps[1..], r);
    }
  }

  /**
   In every run, whenever the worker thread is idle: an entry with a waiting event, thread id or
   reconcile request has a deadline and is due from then on; without a scheduled retry that is at most
   the batch limit after its first dirty time.
   */
  lemma {:induction false} WaitingIsDueInTime(steps: seq<Step>, r: Id, now: Time)
    requires Runnable(INITIAL, steps) && Run(INITIAL, steps).phase.Idle? && r in Run(INITIAL, steps).entries
    requires var e := Run(INITIAL, steps).entries[r]; Waiting(e) && Dispatchable(e, now)
    ensures var e := Run(INITIAL, steps).entries[r];
            && EntryDeadline(e, now).Some?
            && (e.nextRetry.Some? && now >= e.nextRetry.value ==> Due(e, now))
            && (e.nextRetry.None? && e.worker.None? ==> Due(e, now))
            && (e.nextRetry.None? && e.worker.Some? ==>
                  e.firstDirty.Some? && (now >= e.firstDirty.value + MAX_BATCH ==> Due(e, now)))
  {
    hide Run, Runnable;
    RunTimed(INITIAL, steps, r);
    DueExactly(Run(INITIAL, steps).entries[r], now);
  }

  /** An observed event waits with its thread id, in order; a full queue becomes one full reconcile. */
  lemma {:induction false} ObservedWaits(c: Coordinator, r: Id, thread: Thread, event: Event, now: Time)
    requires r in c.entries && !Sealed(c.entries[r])
    ensures var e, d := c.entries[r], Apply(c, Observe(r, thread, event, now)).entries[r];
            && d.threads == e.threads + {thread} && d.recorded == e.recorded + {thread}
            && d.lastDirty == Some(now) && Waiting(d)
            && d.firstDirty == (if e.firstDirty.Some? then e.firstDirty else Some(now))
            && (|e.events| < EVENT_LIMIT ==> d.events == e.events + [event] && d.full == e.full)
            && (|e.events| >= EVENT_LIMIT ==> d.events == [] && d.full)
  {}

  /** An entry of a built worker that just recorded its first event is due after the quiet time. */
  lemma {:induction false} QuietEventIsDue(c: Coordinator, r: Id, thread: Thread, event: Event, at: Time, now: Time)
    requires r in c.entries && !c.entries[r].retiring && c.entries[r].worker.Some? && c.entries[r].config.Some?
    requires !c.entries[r].disabled && c.entries[r].nextRetry.None? && !c.entries[r].full
    requires c.entries[r].firstDirty.None? && |c.entries[r].events| < EVENT_LIMIT
    ensures Due(Apply(c, Observe(r, thread, event, at)).entries[r], now) <==> now >= at + QUIET
  {
    DueExactly(Apply(c, Observe(r, thread, event, at)).entries[r], now);
  }

  // ---------------------------------------------------------------- retirement

  /** Retiring fences the producers, asks for everything once more and sets both deadlines. */
  lemma {:induction false} RetireFences(c: Coordinator, r: Id, begin: Time, now: Time)
    requires r in c.entries && !c.entries[r].retiring && !c.entries[r].quiesced && begin <= now
    ensures var d := Apply(c, Retire(r, begin, now)).entries[r];
            && Sealed(d) && d.full && !d.complete && d.nextRetry.None? && d.deadline == Some(begin + RETIREMENT)
            && d.settleAt == Some(Min(now + QUIET, begin + RETIREMENT)) && d.firstDirty == Some(now)
            && d.fencedAt == Some(c.clock) && d.threads == c.entries[r].threads && d.events == c.entries[r].events
  {}

  /** A sealed entry records nothing any more. */
  lemma SealedStaysQuiet(c: Coordinator, r: Id, thread: Thread, event: Event, now: Time)
    requires r in c.entries && Sealed(c.entries[r])
    ensures Apply(c, Observe(r, thread, event, now)).entries[r] == c.entries[r]
  {}

  /** A selection takes out every retiring entry that is complete, disabled, inactive or out of time. */
  lemma {:induction false} RetiredAtDeadline(c: Coordinator, now: Time, choice: Option<Id>, r: Id)
    requires Enabled(c, Select(now, choice)) && r in c.entries
    ensures var d := Apply(c, Select(now, choice));
            && (r !in d.entries <==> Retirable(c.entries[r], now))
            && (Retirable(c.entries[r], now) ==> OutcomeOf(r, c.entries[r]) in d.outcomes)
            && (c.entries[r].retiring && c.entries[r].deadline.Some? && now >= c.entries[r].deadline.value ==>
                  r !in d.entries)
  {
    hide EntryDeadline;
  }

  /** Something due is dispatched, under the next dispatch number; with nothing due nothing is. */
  lemma {:induction false} DueIsDispatched(c: Coordinator, now: Time, choice: Option<Id>)
    requires Enabled(c, Select(now, choice))
    ensures choice.Some? <==> exists r :: r in c.entries && Due(c.entries[r], now)
    ensures choice.Some? ==>
      && Apply(c, Select(now, choice)).phase == Selected(choice.value)
      && Apply(c, Select(now, choice)).entries[choice.value].lastDispatch == c.sequence + 1
  {
    hide Due, Retirable;
  }

  /** The least recently dispatched due entry is chosen, the lowest id among equals: the choice is unique. */
  lemma {:induction false} ChoiceIsUnique(entries: map<Id, Entry>, now: Time, a: Option<Id>, b: Option<Id>)
    requires Chosen(entries, now, a) && Chosen(entries, now, b)
    ensures a == b
    ensures a.Some? ==> forall r :: r in entries && Due(entries[r], now) && r != a.value ==>
      || entries[a.value].lastDispatch < entries[r].lastDispatch
      || (entries[a.value].lastDispatch == entries[r].lastDispatch && a.value.rank < r.rank)
  {
    hide Due;
  }

  // ---------------------------------------------------------------- how long the worker thread may wait

  /** A time at which the entry will be retired, or fall due, without anything else happening. */
  predicate WakeTime(e: Entry, now: Time, at: Time) {
    && !Retirable(e, now)
    && (|| (e.retiring && e.deadline == Some(at))
        || (e.config.Some? && !e.disabled && EntryDeadline(e, now) == Some(at) && at > now))
  }

  /** The earliest such time over all entries, if there is any. */
  ghost predicate Wakes(entries: map<Id, Entry>, now: Time, wake: Option<Time>) {
    && (wake.Some? ==> exists r :: r in entries && WakeTime(entries[r], now, wake.value))
    && (forall r, at :: r in entries && WakeTime(entries[r], now, at) ==> wake.Some? && wake.value <= at)
  }

  /** Until the wake time nothing more falls due and nothing more is to be retired, so waiting misses nothing. */
  lemma {:induction false} NothingBeforeWake(entries: map<Id, Entry>, now: Time, wake: Option<Time>, t: Time, r: Id)
    requires Wakes(entries, now, wake) && r in entries && now <= t && (wake.Some? ==> t < wake.value)
    ensures Due(entries[r], t) ==> Due(entries[r], now)
    ensures Retirable(entries[r], t) <==> Retirable(entries[r], now)
  {
    hide Due, EntryDeadline, WakeTime;
    var e := entries[r];
    if Due(e, t) && !Due(e, now) {
      LaterDue(e, now, t);
    } else if Retirable(e, t) && !Retirable(e, now) {
      LaterRetirable(e, now, t);
    }
  }

  lemma LaterDue(e: Entry, now: Time, t: Time)
    requires now <= t && Due(e, t) && !Due(e, now)
    ensures exists at :: WakeTime(e, now, at) && at <= t
  {
    hide Min;
    assert WakeTime(e, now, EntryDeadline(e, now).value);
  }

  lemma LaterRetirable(e: Entry, now: Time, t: Time)
    requires now <= t && Retirable(e, t) && !Retirable(e, now)
    ensures exists at :: WakeTime(e, now, at) && at <= t
  {
    hide EntryDeadline;
    assert WakeTime(e, now, e.deadline.value);
  }

  /** At the wake time something is due or to be retired, so waiting is never in vain. */
  lemma {:induction false} SomethingAtWake(entries: map<Id, Entry>, now: Time, wake: Time)
    requires Wakes(entries, now, Some(wake))
    ensures exists r :: r in entries && (Due(entries[r], wake) || Retirable(entries[r], wake))
  {
    hide Min;
    var r :| r in entries && WakeTime(entries[r], now, wake);
    assert Due(entries[r], wake) || Retirable(entries[r], wake);
  }

  /** Exactly when a returned poll completes a retirement. */
  lemma {:induction false} CompletesExactly(
    e: Entry, result: PollResult, wake: Option<Time>, startedAt: Time, now: Time
  )
    requires !e.complete && (e.retiring ==> e.deadline.Some? && e.settleAt.Some?)
    ensures Scheduled(e, result, wake, startedAt, now).complete
       <==> e.retiring && e.quiesced && result.UpToDate? && e.events == [] && !e.full && now >= e.settleAt.value
  {
    hide Min, Max;
  }

  // ---------------------------------------------------------------- retries and failed starts

  /** Retry results outside a retirement back off from half a second, doubling, within one window. */
  lemma {:induction false} RetryBacksOff(e: Entry, result: PollResult, startedAt: Time, now: Time)
    requires !e.retiring && result.RetryLater?
    ensures var d := Scheduled(e, result, None, startedAt, now);
            && (e.retryDeadline.None? ==>
                  && d.retryDeadline == Some(Max(now, startedAt) + MAX_RETRY_WINDOW)
                  && d.nextRetry == Some(Min(now + RETRY_INITIAL, Max(now, startedAt) + MAX_RETRY_WINDOW))
                  && d.retryDelay == RETRY_INITIAL * 2.0)
            && (e.retryDeadline.Some? && now < e.retryDeadline.value ==>
                  && d.retryDeadline == e.retryDeadline && d.retryDelay == e.retryDelay * 2.0
                  && d.nextRetry == Some(Min(now + e.retryDelay, e.retryDeadline.value)))
            && (e.retryDeadline.Some? && now >= e.retryDeadline.value ==>
                  d.nextRetry.None? && d.retryDeadline.None? && d.retryDelay == e.retryDelay)
  {}

  /** Any other result ends the retries; a worker's own recovery time is kept, within a retirement's deadline. */
  lemma {:induction false} OtherResults(e: Entry, result: PollResult, wake: Option<Time>, startedAt: Time, now: Time)
    ensures var d := Scheduled(e, result, wake, startedAt, now);
            && d.starts == 0
            && (!e.retiring && (result.UpToDate? || result.Settled?) ==>
                  d.nextRetry.None? && d.retryDeadline.None? && d.retryDelay == RETRY_INITIAL)
            && ((result.CleanReplay? || result.RecoveryWait?) && wake.Some? && !e.retiring ==>
                  d.nextRetry == wake && d.retryDeadline.None?)
            && ((result.CleanReplay? || result.RecoveryWait?) && wake.Some? && e.retiring && e.deadline.Some? ==>
                  d.nextRetry == Some(Min(wake.value, e.deadline.value)))
  {
    hide Min, Max, RetirementScheduled, RetryScheduled, Waiting;
    ScheduledKeepsTimes(e, result, wake, startedAt, now);
  }

  /** One failed start is tried again after the restart delay; a second in a row disables the entry. */
  lemma {:induction false} SecondFailureDisables(c: Coordinator, now: Time)
    requires Enabled(c, StartWorker(false, now))
    ensures var r := c.phase.runtime;
            var d := Apply(c, StartWorker(false, now)).entries[r];
            && d.starts == c.entries[r].starts + 1 && d.worker.None?
            && (d.starts < MAX_STARTS ==> !d.disabled && d.nextRetry == Some(now + RESTART_DELAY))
            && (d.starts >= MAX_STARTS ==> d.disabled && !Due(d, now))
  {}

  /** A failed poll drops its worker; its batch waits in front of what came since. */
  lemma {:induction false} FailedPollRestarts(c: Coordinator, now: Time)
    requires Enabled(c, PollRaises)
    ensures var f := c.phase.flight;
            var m := Apply(c, PollRaises);
            && Enabled(m, RecordFailure(now))
            && var d := Apply(m, RecordFailure(now)).entries[f.runtime];
               && d.worker.None? && d.full && d.events == f.events + c.entries[f.runtime].events
               && d.threads == c.entries[f.runtime].threads + f.threads
               && (d.disabled <==> c.entries[f.runtime].starts + 1 >= MAX_STARTS)
  {}

  /** A capture hands the poll everything that waits, and leaves the entry clean. */
  lemma {:induction false} CaptureTakesAll(c: Coordinator, now: Time)
    requires Enabled(c, Capture(now))
    ensures var r := c.phase.runtime;
            var e, d := c.entries[r], Apply(c, Capture(now));
            && d.phase.Polling? && d.phase.flight.events == e.events && d.phase.flight.threads == e.threads
            && d.phase.flight.full == e.full && d.phase.flight.capturedAt == c.clock
            && !Waiting(d.entries[r]) && d.entries[r].firstDirty.None? && d.entries[r].lastDirty.None?
            && d.entries[r].nextRetry.None? && d.entries[r].worker == e.worker
            && (e.firstDirty.Some? && e.firstDirty.value != 0.0 ==> d.phase.flight.startedAt == e.firstDirty.value)
            && (e.firstDirty in {None, Some(0.0)} ==> d.phase.flight.startedAt == now)
  {}

  /** What a returned poll leaves behind: its threads as handed over, and when it captured if it was up to date. */
  lemma {:induction false} ReturnRemembers(c: Coordinator, result: PollResult, wake: Option<Time>, now: Time)
    requires Enabled(c, PollReturns(result, wake, now))
    ensures var f, m := c.phase.flight, Apply(c, PollReturns(result, wake, now));
            var e, d := c.entries[f.runtime], m.entries[f.runtime];
            && m.phase.Idle? && d.handed == e.handed + f.threads
            && d.attestedBy == (if result.UpToDate? then Some(f.capturedAt) else e.attestedBy)
            && d.events == e.events && d.threads == e.threads && d.worker == e.worker
  {
    hide Scheduled;
    var f := c.phase.flight;
    var e := Attested(c.entries[f.runtime], f, result);
    ScheduledKeepsBatch(e, result, wake, f.startedAt, now);
  }

  /** The batch, the worker and the history are the same. */
  predicate SameBatch(e: Entry, d: Entry) {
    && d.events == e.events && d.threads == e.threads && d.worker == e.worker
    && d.handed == e.handed && d.attestedBy == e.attestedBy
  }

  lemma RetirementKeepsBatch(e: Entry, result: PollResult, now: Time)
    requires e.deadline.Some? && e.settleAt.Some?
    ensures SameBatch(e, RetirementScheduled(e, result, now))
  {
    hide Min, Max;
  }

  lemma RetryKeepsBatch(e: Entry, until: Time, delay: Time, now: Time)
    ensures SameBatch(e, RetryScheduled(e, until, delay, now))
  {
    hide Min;
  }

  lemma StartsAside(e: Entry, d: Entry)
    requires SameBatch(e.(starts := 0), d)
    ensures SameBatch(e, d)
  {}

  lemma DelaysAside(e: Entry, next: Option<Time>, deadline: Option<Time>, delay: Time)
    ensures SameBatch(e, e.(nextRetry := next, retryDeadline := deadline))
    ensures SameBatch(e, e.(nextRetry := next, retryDeadline := deadline, retryDelay := delay))
  {}

  lemma ScheduledKeepsBatch(e: Entry, result: PollResult, wake: Option<Time>, startedAt: Time, now: Time)
    ensures SameBatch(e, Scheduled(e, result, wake, startedAt, now))
  {
    hide Min, Max, Retries, RetirementScheduled, RetryScheduled, SameBatch;
    var s, d := e.(starts := 0), Scheduled(e, result, wake, startedAt, now);
    DelaysAside(s, d.nextRetry, None, RETRY_INITIAL);
    if e.deadline.Some? && e.settleAt.Some? {
      RetirementKeepsBatch(s, result, now);
    }
    if e.retryDeadline.Some? {
      RetryKeepsBatch(s, e.retryDeadline.value, e.retryDelay, now);
    } else {
      RetryKeepsBatch(s, Max(now, startedAt) + MAX_RETRY_WINDOW, RETRY_INITIAL, now);
    }
    assert SameBatch(s, d);
    StartsAside(e, d);
  }

  // ---------------------------------------------------------------- a retirement that is not over

  /** A retiring entry that is not up to date is polled again with growing delay, never past its deadline. */
  lemma {:induction false} RetirementRetries(e: Entry, result: PollResult, startedAt: Time, now: Time)
    requires e.retiring && e.deadline.Some? && e.settleAt.Some? && (result.UpToDate? ==> e.events != [] || e.full)
    ensures var d := Scheduled(e, result, None, startedAt, now);
            && d.nextRetry == Some(Min(now + e.retryDelay, e.deadline.value)) && d.retryDelay == e.retryDelay * 2.0
            && d.complete == e.complete && d.full == e.full
  {}

  /** An up-to-date poll before the settling time, or before the fence, asks for one more full poll after it. */
  lemma {:induction false} RetirementSettles(e: Entry, startedAt: Time, now: Time)
    requires e.retiring && e.deadline.Some? && e.settleAt.Some? && e.events == [] && !e.full
    requires now < e.settleAt.value || !e.quiesced
    ensures var d := Scheduled(e, UpToDate, None, startedAt, now);
            && d.nextRetry == Some(Min(Max(e.settleAt.value, now + QUIET), e.deadline.value))
            && d.full && d.complete == e.complete
  {}

  /** Closing begins every retirement that has not begun, without fencing; retiring entries stay as they are. */
  lemma {:induction false} CloseRetires(c: Coordinator, now: Time, r: Id)
    requires r in c.entries
    ensures var e, d := c.entries[r], Apply(c, Close(now)).entries[r];
            && (e.retiring ==> d == e)
            && (!e.retiring ==>
                  && d.retiring && d.full && d.nextRetry.None? && d.quiesced == e.quiesced
                  && d.deadline == Some(now + RETIREMENT) && d.settleAt == Some(now + QUIET)
                  && d.firstDirty == Some(now) && d.lastDirty == Some(now)
                  && d.events == e.events && d.threads == e.threads)
            && Apply(c, Close(now)).closing
  {}

  /** A fence after a close keeps the deadline, settles anew and asks for everything once more. */
  lemma {:induction false} LateFence(c: Coordinator, r: Id, begin: Time, now: Time)
    requires r in c.entries && c.entries[r].retiring && !c.entries[r].quiesced && c.entries[r].deadline.Some?
    ensures var e, d := c.entries[r], Apply(c, Retire(r, begin, now)).entries[r];
            && Sealed(d) && d.full && !d.complete && d.nextRetry.None? && d.deadline == e.deadline
            && d.settleAt == Some(Min(now + QUIET, e.deadline.value)) && d.fencedAt == Some(c.clock)
            && d.firstDirty == Some(now) && d.lastDirty == Some(now)
  {}

  /** A second fence changes nothing. */
  lemma {:induction false} FencedOnce(c: Coordinator, r: Id, begin: Time, now: Time)
    requires r in c.entries && c.entries[r].retiring && c.entries[r].quiesced
    ensures Apply(c, Retire(r, begin, now)).entries[r] == c.entries[r]
  {}

  // ---------------------------------------------------------------- reservations and activations

  /** What every reservation answers, and that only an admitted one changes anything: to a blank entry. */
  lemma {:induction false} ReservedExactly(c: Coordinator, r: Id, reserved: int, now: Time)
    ensures var v, d := Reserving(c, r, reserved), Apply(c, Reserve(r, reserved));
            && (v.Closing? <==> c.closing)
            && (v.Admitted? <==> !c.closing && r !in c.entries)
            && (v.Repeated? <==>
                  !c.closing && r in c.entries && c.entries[r].reserved == reserved && !c.entries[r].retiring)
            && (!v.Admitted? ==> d.entries == c.entries)
            && (v.Admitted? ==>
                  && r in d.entries && d.entries[r].reserved == reserved && d.entries[r].config.None?
                  && !Waiting(d.entries[r]) && !d.entries[r].disabled && !d.entries[r].retiring
                  && d.entries[r].lastDispatch == 0 && !Due(d.entries[r], now))
  {}

  /** Activation succeeds exactly for a live reservation it extends, at most once, and makes the entry due at once. */
  lemma {:induction false} ActivatedIsDue(c: Coordinator, r: Id, config: Activation, now: Time)
    requires r in c.entries
    ensures var e, d := c.entries[r], Apply(c, Activate(r, config, now)).entries[r];
            var live := !e.retiring && config.reserved == e.reserved && (e.config.None? || e.config == Some(config));
            && (!live ==> d == e)
            && (live ==> d.config == Some(config) && d.full && !d.disabled && d.firstDirty == Some(now))
            && (live && e.nextRetry.None? ==> Due(d, now))
            && d.events == e.events && d.threads == e.threads
  {}

  /** A built worker is kept and the entry polled at once. */
  lemma {:induction false} BuiltWorkerPolls(c: Coordinator, now: Time)
    requires Enabled(c, StartWorker(true, now))
    ensures var d, r := Apply(c, StartWorker(true, now)), c.phase.runtime;
            && d.phase == c.phase && Enabled(d, Capture(now)) && d.entries[r].nextRetry.None?
            && d.entries[r] == c.entries[r].(worker := d.entries[r].worker, nextRetry := None)
  {}

  /** A retirement outcome is inactive exactly when never activated, and complete exactly when it was completed. */
  lemma {:induction false} OutcomeSays(c: Coordinator, now: Time, choice: Option<Id>, r: Id)
    requires Enabled(c, Select(now, choice)) && r in c.entries && Retirable(c.entries[r], now)
    ensures exists o :: o in Apply(c, Select(now, choice)).outcomes && o.runtime == r && o.entry == c.entries[r]
                        && (o.state.Inactive? <==> c.entries[r].config.None?)
                        && (o.state.Complete? <==> c.entries[r].config.Some? && c.entries[r].complete)
  {
    hide EntryDeadline, Retirable;
    RetiredAtDeadline(c, now, choice, r);
    assert OutcomeOf(r, c.entries[r]) in Apply(c, Select(now, choice)).outcomes;
  }
}
