/** The coordinator as an object: each lock section as the source runs it, proved equal to its step. */
module CoordinatorWorker {
  import opened Wrappers
  import opened Coordinator
  import opened CoordinatorProofs
  import opened CoordinatorTiming

  class SharedAnalyticsCoordinator {
    var entries: map<Id, Entry>
    var closing: bool
    var sequence: nat
    var phase: Phase
    var outcomes: set<Outcome>
    var clock: nat
    var serials: nat

    function Model(): Coordinator
      reads this
    {
      Coordinator(entries, closing, sequence, phase, outcomes, clock, serials)
    }

    ghost predicate Valid()
      reads this
    {
      Consistent(Model()) && Numbered(Model())
    }

    constructor ()
      ensures Valid() && Model() == INITIAL
    {
      entries, closing, sequence, phase, outcomes, clock, serials := map[], false, 0, Idle, {}, 0, 0;
      new;
      InitialConsistent();
    }

    method Update(r: Id, e: Entry)
      modifies this`entries, this`clock
      ensures entries == old(entries)[r := e] && clock == old(clock) + 1
    {
      entries, clock := entries[r := e], clock + 1;
    }

    method ReserveRuntime(r: Id, reserved: int) returns (outcome: Reservation)
      requires Valid()
      modifies this
      ensures Valid() && Model() == Apply(old(Model()), Reserve(r, reserved))
      ensures outcome == Reserving(old(Model()), r, reserved)
    {
      hide Consistent, Numbered;
      StepConsistent(Model(), Reserve(r, reserved));
      StepNumbered(Model(), Reserve(r, reserved));
      if closing {
        outcome := Closing;
      } else if r in entries {
        outcome := if entries[r].reserved == reserved && !entries[r].retiring then Repeated else Taken;
      } else {
        outcome := Admitted;
        entries, serials := entries[r := NewEntry(reserved, serials)], serials + 1;
      }
      clock := clock + 1;
    }

    method ActivateRuntime(r: Id, config: Activation, now: Time) returns (activated: bool)
      requires Valid()
      modifies this
      ensures Valid() && Model() == Apply(old(Model()), Activate(r, config, now))
      ensures activated == Activates(old(Model()), r, config)
    {
      hide Consistent, Numbered;
      StepConsistent(Model(), Activate(r, config, now));
      StepNumbered(Model(), Activate(r, config, now));
      activated := r in entries && !entries[r].retiring && entries[r].reserved == config.reserved
                   && (entries[r].config.None? || entries[r].config == Some(config));
      if activated {
        var e := entries[r];
        e := e.(config := Some(config), full := true, firstDirty := Some(now), lastDirty := Some(now));
        e := e.(disabled := false);
        entries := entries[r := e];
      }
      clock := clock + 1;
    }

    method ObserveProtocolEvent(r: Id, thread: Thread, event: Event, now: Time)
      requires Valid()
      modifies this
      ensures Valid() && Model() == Apply(old(Model()), Observe(r, thread, event, now))
    {
      hide Consistent, Numbered;
      StepConsistent(Model(), Observe(r, thread, event, now));
      StepNumbered(Model(), Observe(r, thread, event, now));
      if r !in entries || (entries[r].retiring && entries[r].quiesced) {
        assert r in entries ==> entries[r := entries[r]] == entries;
        clock := clock + 1;
        return;
      }
      var e := entries[r];
      if |e.events| >= EVENT_LIMIT {
        e := e.(events := [], full := true);
      } else {
        e := e.(events := e.events + [event]);
      }
      e := e.(threads := e.threads + {thread}, recorded := e.recorded + {thread});
      e := e.(firstDirty := if e.firstDirty.None? then Some(now) else e.firstDirty, lastDirty := Some(now));
      Update(r, e);
    }

    method RetireRuntime(r: Id, begin: Time, now: Time)
      requires Valid()
      modifies this
      ensures Valid() && Model() == Apply(old(Model()), Retire(r, begin, now))
    {
      hide Consistent, Numbered;
      StepConsistent(Model(), Retire(r, begin, now));
      StepNumbered(Model(), Retire(r, begin, now));
      if r !in entries {
        clock := clock + 1;
        return;
      }
      var e := entries[r];
      var newly := !e.quiesced;
      e := RetirementBegun(e.(quiesced := true), begin);
      if newly {
        e := e.(full := true, firstDirty := Some(now), lastDirty := Some(now), nextRetry := None, complete := false,
                settleAt := Some(if e.deadline.Some? then Min(now + QUIET, e.deadline.value) else now + QUIET),
                fencedAt := Some(clock));
      }
      Update(r, e);
    }

    method CloseCoordinator(now: Time)
      requires Valid()
      modifies this
      ensures Valid() && Model() == Apply(old(Model()), Close(now))
    {
      hide Consistent, Numbered;
      StepConsistent(Model(), Close(now));
      StepNumbered(Model(), Close(now));
      closing := true;
      BeginRetirements(now);
      clock := clock + 1;
    }

    method BeginRetirements(now: Time)
      modifies this`entries
      ensures entries == map r | r in old(entries) :: RetirementBegun(old(entries)[r], now)
    {
      ghost var before := entries;
      var rest := entries.Keys;
      while rest != {}
        invariant rest <= before.Keys && entries.Keys == before.Keys
        invariant forall r :: r in before ==>
          entries[r] == if r in rest then before[r] else RetirementBegun(before[r], now)
        decreases rest
      {
        var r :| r in rest;
        entries := entries[r := RetirementBegun(entries[r], now)];
        rest := rest - {r};
      }
      assert entries == map r | r in before :: RetirementBegun(before[r], now);
    }

    /** One pass over the entries: those to retire, and the due one dispatched least recently. */
    method Scan(now: Time) returns (gone: set<Id>, choice: Option<Id>)
      ensures gone == Retirees(entries, now) && Chosen(entries, now, choice)
    {
      gone, choice := {}, None;
      var rest := entries.Keys;
      ghost var done: set<Id> := {};
      while rest != {}
        invariant rest + done == entries.Keys && rest !! done
        invariant gone == set r | r in done && Retirable(entries[r], now)
        invariant choice.None? ==> forall r :: r in done ==> !Due(entries[r], now)
        invariant choice.Some? ==> choice.value in done && Due(entries[choice.value], now)
        invariant choice.Some? ==> forall r :: r in done && Due(entries[r], now) ==>
          Precedes(entries[choice.value].lastDispatch, choice.value, entries[r].lastDispatch, r)
        decreases rest
      {
        hide Due, Retirable;
        var r :| r in rest;
        var e := entries[r];
        if Retirable(e, now) {
          gone := gone + {r};
          RetirableNotDue(e, now);
        } else if Due(e, now) {
          if choice.None? || !Precedes(entries[choice.value].lastDispatch, choice.value, e.lastDispatch, r) {
            choice := Some(r);
          }
        }
        rest, done := rest - {r}, done + {r};
      }
      assert done == entries.Keys;
    }

    /** How long the worker thread may wait when nothing is due: the earliest coming deadline of any entry. */
    method NextWake(now: Time) returns (wake: Option<Time>)
      ensures Wakes(entries, now, wake)
    {
      wake := None;
      var rest := entries.Keys;
      ghost var done: set<Id> := {};
      ghost var from: Option<Id> := None;
      while rest != {}
        invariant rest + done == entries.Keys && rest !! done
        invariant wake.Some? ==> from.Some? && from.value in done && WakeTime(entries[from.value], now, wake.value)
        invariant forall r, at :: r in done && WakeTime(entries[r], now, at) ==> wake.Some? && wake.value <= at
        decreases rest
      {
        hide EntryDeadline;
        var r :| r in rest;
        var e := entries[r];
        if !Retirable(e, now) {
          if e.retiring && e.deadline.Some? && (wake.None? || e.deadline.value < wake.value) {
            wake, from := e.deadline, Some(r);
          }
          var deadline := EntryDeadline(e, now);
          if e.config.Some? && !e.disabled && deadline.Some? && deadline.value > now
             && (wake.None? || deadline.value < wake.value) {
            wake, from := deadline, Some(r);
          }
        }
        rest, done := rest - {r}, done + {r};
      }
      assert done == entries.Keys;
    }

    method SelectWork(now: Time) returns (choice: Option<Id>)
      requires Valid() && phase.Idle?
      modifies this
      ensures Chosen(old(entries), now, choice)
      ensures Valid() && Model() == Apply(old(Model()), Select(now, choice))
    {
      hide Consistent, Numbered, Chosen, Retirable;
      var gone;
      gone, choice := Scan(now);
      StepConsistent(Model(), Select(now, choice));
      StepNumbered(Model(), Select(now, choice));
      ChosenPresent(entries, now, choice);
      outcomes := outcomes + set r | r in gone :: OutcomeOf(r, entries[r]);
      var before := entries;
      entries := entries - gone;
      clock := clock + 1;
      if choice.Some? {
        sequence := sequence + 1;
        entries := entries[choice.value := before[choice.value].(lastDispatch := sequence)];
        phase := Selected(choice.value);
      }
    }

    method Capture(now: Time)
      requires Valid() && Enabled(Model(), Step.Capture(now))
      modifies this
      ensures Valid() && Model() == Apply(old(Model()), Step.Capture(now))
    {
      hide Consistent, Numbered;
      StepConsistent(Model(), Step.Capture(now));
      StepNumbered(Model(), Step.Capture(now));
      var r := phase.runtime;
      var e := entries[r];
      phase := Polling(Flight(r, e.events, e.threads, e.full, StartOf(e, now), clock));
      e := e.(events := [], threads := {}, firstDirty := None, lastDirty := None, full := false, nextRetry := None);
      Update(r, e);
    }

    /** The worker of a selected entry was built, or its construction failed and is counted. */
    method RecordStart(started: bool, now: Time)
      requires Valid() && Enabled(Model(), StartWorker(started, now))
      modifies this
      ensures Valid() && Model() == Apply(old(Model()), StartWorker(started, now))
    {
      hide Consistent, Numbered;
      StepConsistent(Model(), StartWorker(started, now));
      StepNumbered(Model(), StartWorker(started, now));
      var r := phase.runtime;
      var e := entries[r];
      if started {
        e := e.(worker := Some(clock), nextRetry := None);
      } else {
        phase := Idle;
        e := e.(starts := e.starts + 1);
        e := e.(nextRetry := if e.starts < MAX_STARTS then Some(now + RESTART_DELAY) else None,
                disabled := e.starts >= MAX_STARTS);
      }
      Update(r, e);
    }

    method RecordWorkerFailure(now: Time)
      requires Valid() && Enabled(Model(), RecordFailure(now))
      modifies this
      ensures Valid() && Model() == Apply(old(Model()), RecordFailure(now))
    {
      hide Consistent, Numbered;
      StepConsistent(Model(), RecordFailure(now));
      StepNumbered(Model(), RecordFailure(now));
      var r := phase.runtime;
      var e := entries[r].(worker := None, starts := entries[r].starts + 1);
      phase := Idle;
      Update(r, e.(nextRetry := if e.starts < MAX_STARTS then Some(now + RESTART_DELAY) else None,
                   disabled := e.starts >= MAX_STARTS));
    }

    /** Put a failed poll's batch back: its events one by one in front of those that came since. */
    method RestoreBatch()
      requires Valid() && Enabled(Model(), PollRaises)
      modifies this
      ensures Valid() && Model() == Apply(old(Model()), PollRaises)
    {
      hide Consistent, Numbered;
      StepConsistent(Model(), PollRaises);
      StepNumbered(Model(), PollRaises);
      var f := phase.flight;
      var e := entries[f.runtime];
      var events := ExtendLeft(e.events, f.events);
      phase := Failing(f.runtime);
      Update(f.runtime, e.(events := events, threads := e.threads + f.threads, full := true));
    }

    method ScheduleResult(result: PollResult, wake: Option<Time>, now: Time)
      requires Valid() && Enabled(Model(), PollReturns(result, wake, now))
      modifies this
      ensures Valid() && Model() == Apply(old(Model()), PollReturns(result, wake, now))
    {
      hide Consistent, Numbered, Scheduled;
      StepConsistent(Model(), PollReturns(result, wake, now));
      StepNumbered(Model(), PollReturns(result, wake, now));
      var f := phase.flight;
      RetiringHasDeadlines(Model(), f.runtime);
      var e := Reschedule(Attested(entries[f.runtime], f, result), result, wake, f.startedAt, now);
      phase := Idle;
      Update(f.runtime, e);
    }
  }

  /** The entry after its poll returned, assignment by assignment. */
  method Reschedule(entry: Entry, result: PollResult, wake: Option<Time>, startedAt: Time, now: Time) returns (e: Entry)
    requires entry.retiring ==> entry.deadline.Some? && entry.settleAt.Some?
    ensures e == Scheduled(entry, result, wake, startedAt, now)
  {
    hide Min, Max, RetirementScheduled, RetryScheduled;
    e := entry.(starts := 0);
    if (result.CleanReplay? || result.RecoveryWait?) && wake.Some? {
      e := e.(nextRetry := wake);
      if e.retiring {
        e := e.(nextRetry := Some(Min(wake.value, e.deadline.value)));
      }
      return e.(retryDeadline := None);
    }
    if e.retiring {
      e := RescheduleRetiring(e, result, now);
      return;
    }
    if !Retries(result) {
      return e.(nextRetry := None, retryDeadline := None, retryDelay := RETRY_INITIAL);
    }
    e := RetryWithinWindow(e, startedAt, now);
  }

  /** A retiring entry completes, asks for one more look after it settled, or backs off until its deadline. */
  method RescheduleRetiring(entry: Entry, result: PollResult, now: Time) returns (e: Entry)
    requires entry.deadline.Some? && entry.settleAt.Some?
    ensures e == RetirementScheduled(entry, result, now)
    ensures !e.complete ==> e.nextRetry.Some? && e.nextRetry.value <= entry.deadline.value
  {
    e := entry;
    if result.UpToDate? && e.events == [] && !e.full {
      if now >= e.settleAt.value && e.quiesced {
        return e.(complete := true);
      }
      return e.(nextRetry := Some(Min(Max(e.settleAt.value, now + QUIET), e.deadline.value)), full := true);
    }
    e := e.(nextRetry := Some(Min(now + e.retryDelay, e.deadline.value)));
    e := e.(retryDelay := e.retryDelay * 2.0);
  }

  method RetryWithinWindow(entry: Entry, startedAt: Time, now: Time) returns (e: Entry)
    ensures e ==
      if entry.retryDeadline.Some? then RetryScheduled(entry, entry.retryDeadline.value, entry.retryDelay, now)
      else RetryScheduled(entry, Max(now, startedAt) + MAX_RETRY_WINDOW, RETRY_INITIAL, now)
    ensures e.nextRetry.Some? ==>
      e.retryDeadline.Some? && now < e.retryDeadline.value && e.nextRetry.value <= e.retryDeadline.value
    ensures entry.retryDeadline.Some? ==> e.retryDeadline in {None, entry.retryDeadline}
    ensures entry.retryDeadline.Some? && now >= entry.retryDeadline.value ==> e.nextRetry.None?
  {
    e := entry;
    if e.retryDeadline.None? {
      e := e.(retryDeadline := Some(Max(now, startedAt) + MAX_RETRY_WINDOW), retryDelay := RETRY_INITIAL);
    }
    if now >= e.retryDeadline.value {
      return e.(nextRetry := None, retryDeadline := None);
    }
    e := e.(nextRetry := Some(Min(now + e.retryDelay, e.retryDeadline.value)));
    e := e.(retryDelay := e.retryDelay * 2.0);
  }

  method ExtendLeft(pending: seq<Event>, batch: seq<Event>) returns (r: seq<Event>)
    ensures r == batch + pending
  {
    r := pending;
    for i := |batch| downto 0
      invariant r == batch[i..] + pending
    {
      r := [batch[i]] + r;
    }
  }

  lemma RetiringHasDeadlines(c: Coordinator, r: Id)
    requires Consistent(c) && r in c.entries
    ensures c.entries[r].retiring ==> c.entries[r].deadline.Some? && c.entries[r].settleAt.Some?
  {
    assert IdOk(c, r);
  }

  lemma RetirableNotDue(e: Entry, now: Time)
    requires Retirable(e, now)
    ensures !Due(e, now)
  {}

  lemma ChosenPresent(entries: map<Id, Entry>, now: Time, choice: Option<Id>)
    requires Chosen(entries, now, choice)
    ensures choice.Some? ==> choice.value in entries
  {}
}
