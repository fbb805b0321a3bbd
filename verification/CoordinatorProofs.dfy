/** Fenced retirement, conservation of recorded thread ids, and fair dispatch, over every run. */
module CoordinatorProofs {
  import opened Wrappers
  import opened Finite
  import opened Coordinator

  // ---------------------------------------------------------------- retirement and conservation

  predicate Busy(c: Coordinator, r: Id) {
    (c.phase.Selected? && c.phase.runtime == r) || (c.phase.Polling? && c.phase.flight.runtime == r)
    || (c.phase.Failing? && c.phase.runtime == r)
  }

  function InFlight(c: Coordinator, r: Id): set<Thread> {
    if c.phase.Polling? && c.phase.flight.runtime == r then c.phase.flight.threads else {}
  }

  /**
   A poll that captured its batch after the fence returned up to date, nothing is left to hand over,
   and every thread id ever recorded was handed to a poll that returned.
   */
  predicate Finished(e: Entry) {
    && e.config.Some? && e.quiesced && e.fencedAt.Some? && e.attestedBy.Some? && e.attestedBy.value > e.fencedAt.value
    && e.events == [] && !e.full && e.threads == {} && e.recorded <= e.handed
  }

  predicate EntryOk(c: Coordinator, r: Id, e: Entry) {
    && (e.threads != {} ==> e.events != [] || e.full)
    && (e.retiring ==> e.deadline.Some? && e.settleAt.Some?)
    && (e.quiesced ==> e.retiring) && (e.quiesced <==> e.fencedAt.Some?)
    && (e.fencedAt.Some? ==> e.fencedAt.value < c.clock)
    && e.recorded <= e.threads + InFlight(c, r) + e.handed
    && (c.phase.Polling? && c.phase.flight.runtime == r ==>
          && c.phase.flight.capturedAt < c.clock
          && (e.quiesced && c.phase.flight.capturedAt <= e.fencedAt.value ==> e.full))
    && (Busy(c, r) ==> e.config.Some?)
    && (e.complete ==> Finished(e) && !Busy(c, r))
  }

  predicate IdOk(c: Coordinator, r: Id) {
    (r in c.entries ==> EntryOk(c, r, c.entries[r])) && (Busy(c, r) ==> r in c.entries)
  }

  /** The step leaves entry `r` and the worker's dealings with it alone. */
  predicate Apart(c: Coordinator, d: Coordinator, r: Id) {
    && (r in d.entries ==> r in c.entries && d.entries[r] == c.entries[r])
    && (Busy(d, r) ==> r in d.entries)
    && d.clock >= c.clock
    && (Busy(d, r) ==> Busy(c, r)) && InFlight(d, r) == InFlight(c, r)
    && (d.phase.Polling? && d.phase.flight.runtime == r ==> d.phase == c.phase)
  }

  lemma ApartOk(c: Coordinator, d: Coordinator, r: Id)
    requires IdOk(c, r) && Apart(c, d, r)
    ensures IdOk(d, r)
  {}

  lemma RecordedOk(c: Coordinator, d: Coordinator, r: Id, thread: Thread, event: Event, now: Time)
    requires r in c.entries && IdOk(c, r) && d.phase == c.phase && d.clock >= c.clock
    ensures EntryOk(d, r, Recorded(c.entries[r], thread, event, now))
  {}

  lemma ActivatedOk(c: Coordinator, d: Coordinator, r: Id, config: Activation, now: Time)
    requires r in c.entries && IdOk(c, r) && d.phase == c.phase && d.clock >= c.clock && !c.entries[r].retiring
    ensures EntryOk(d, r, Activated(c.entries[r], config, now))
  {}

  lemma BegunOk(c: Coordinator, d: Coordinator, r: Id, now: Time)
    requires r in c.entries && IdOk(c, r) && d.phase == c.phase && d.clock >= c.clock
    ensures EntryOk(d, r, RetirementBegun(c.entries[r], now))
  {}

  /** The fence demands a full reconcile, so a poll already in flight can no longer attest. */
  lemma FencedOk(c: Coordinator, d: Coordinator, r: Id, begin: Time, now: Time)
    requires r in c.entries && IdOk(c, r) && d.phase == c.phase && d.clock == c.clock + 1
    ensures EntryOk(d, r, Fenced(c.entries[r], begin, now, c.clock))
  {}

  lemma {:induction false} ProducersKeepOk(c: Coordinator, s: Step, r: Id)
    requires s.Activate? || s.Observe? || s.Retire? || s.Reserve?
    requires IdOk(c, r)
    ensures IdOk(Apply(c, s), r)
  {
    hide EntryOk, Recorded, Activated, Fenced;
    var d := Apply(c, s);
    if s.runtime == r && r in c.entries {
      match s
      case Activate(_, config, now) =>
        if !c.entries[r].retiring {
          ActivatedOk(c, d, r, config, now);
        }
        SameEntryOk(c, d, r);
      case Observe(_, thread, event, now) => RecordedOk(c, d, r, thread, event, now);
      case Retire(_, begin, now) => FencedOk(c, d, r, begin, now);
      case Reserve(_, _) => SameEntryOk(c, d, r);
    } else if s.runtime == r {
      NewEntryOk(c, d, r);
    } else {
      ApartOk(c, d, r);
    }
  }

  lemma SameEntryOk(c: Coordinator, d: Coordinator, r: Id)
    requires IdOk(c, r) && r in c.entries && d.phase == c.phase && d.clock >= c.clock
    ensures EntryOk(d, r, c.entries[r])
  {}

  /** A fresh entry starts clean unless the worker were still busy with its id. */
  lemma NewEntryOk(c: Coordinator, d: Coordinator, r: Id)
    requires r !in c.entries && d.clock == c.clock + 1
    ensures !Busy(d, r) ==> forall reserved :: EntryOk(d, r, NewEntry(reserved, c.serials))
  {}

  lemma StartedOk(c: Coordinator, d: Coordinator, r: Id, e: Entry)
    requires c.phase == Selected(r) && r in c.entries && IdOk(c, r) && d.clock >= c.clock && d.phase in {c.phase, Idle}
    requires e ==
      c.entries[r].(worker := e.worker, nextRetry := e.nextRetry, starts := e.starts, disabled := e.disabled)
    ensures EntryOk(d, r, e)
  {}

  lemma CapturedOk(c: Coordinator, d: Coordinator, r: Id, f: Flight)
    requires c.phase == Selected(r) && r in c.entries && IdOk(c, r) && d.clock == c.clock + 1
    requires d.phase == Polling(f) && f.runtime == r && f.threads == c.entries[r].threads && f.capturedAt == c.clock
    ensures EntryOk(d, r, Emptied(c.entries[r]))
  {}

  lemma RestoredOk(c: Coordinator, d: Coordinator, r: Id)
    requires c.phase.Polling? && c.phase.flight.runtime == r && r in c.entries && IdOk(c, r)
    requires d.phase == Failing(r) && d.clock >= c.clock
    ensures EntryOk(d, r, Restored(c.entries[r], c.phase.flight))
  {}

  lemma FailedOk(c: Coordinator, d: Coordinator, r: Id, now: Time)
    requires c.phase == Failing(r) && r in c.entries && IdOk(c, r) && d.phase.Idle? && d.clock >= c.clock
    ensures EntryOk(d, r, StartFailed(c.entries[r], now).(worker := None))
  {}

  /** A returned poll completes the retirement only by attesting what was captured after the fence. */
  lemma {:induction false} ReturnedOk(
    c: Coordinator, d: Coordinator, r: Id, result: PollResult, wake: Option<Time>, now: Time
  )
    requires c.phase.Polling? && c.phase.flight.runtime == r && r in c.entries && IdOk(c, r)
    requires d.phase.Idle? && d.clock >= c.clock
    ensures var f := c.phase.flight;
            EntryOk(d, r, Scheduled(Attested(c.entries[r], f, result), result, wake, f.startedAt, now))
  {
    var f := c.phase.flight;
    var a := Attested(c.entries[r], f, result);
    AttestedOk(c, d, r, result);
    ScheduledOk(d, r, a, result, wake, f.startedAt, now);
  }

  /** What a returned poll leaves, before it is scheduled. */
  predicate Attesting(e: Entry, result: PollResult) {
    && !e.complete && e.config.Some?
    && (result.UpToDate? && e.quiesced && !e.full ==>
          e.fencedAt.Some? && e.attestedBy.Some? && e.attestedBy.value > e.fencedAt.value)
  }

  lemma AttestedOk(c: Coordinator, d: Coordinator, r: Id, result: PollResult)
    requires c.phase.Polling? && c.phase.flight.runtime == r && r in c.entries && IdOk(c, r)
    requires d.phase.Idle? && d.clock >= c.clock
    ensures var a := Attested(c.entries[r], c.phase.flight, result);
            EntryOk(d, r, a) && Attesting(a, result)
  {}

  lemma ScheduledOk(d: Coordinator, r: Id, a: Entry, result: PollResult, wake: Option<Time>, startedAt: Time, now: Time)
    requires d.phase.Idle? && EntryOk(d, r, a) && Attesting(a, result)
    ensures EntryOk(d, r, Scheduled(a, result, wake, startedAt, now))
  {
    hide Min, Max;
  }

  lemma {:induction false} BatchKeepsOk(c: Coordinator, s: Step, r: Id)
    requires s.StartWorker? || s.Capture?
    requires Enabled(c, s) && IdOk(c, r)
    ensures IdOk(Apply(c, s), r)
  {
    hide EntryOk, Emptied;
    var d := Apply(c, s);
    if !Busy(c, r) {
      ApartOk(c, d, r);
    } else if s.StartWorker? {
      StartedOk(c, d, r, d.entries[r]);
    } else {
      CapturedOk(c, d, r, d.phase.flight);
    }
  }

  lemma {:induction false} PollKeepsOk(c: Coordinator, s: Step, r: Id)
    requires s.PollRaises? || s.RecordFailure? || s.PollReturns?
    requires Enabled(c, s) && IdOk(c, r)
    ensures IdOk(Apply(c, s), r)
  {
    hide EntryOk, Scheduled, Attested, Restored;
    var d := Apply(c, s);
    if !Busy(c, r) {
      ApartOk(c, d, r);
    } else {
      match s
      case PollRaises => RestoredOk(c, d, r);
      case RecordFailure(now) => FailedOk(c, d, r, now);
      case PollReturns(result, wake, now) => ReturnedOk(c, d, r, result, wake, now);
    }
  }

  lemma SelectedOk(c: Coordinator, s: Step, r: Id)
    requires s.Select? && Enabled(c, s) && IdOk(c, r)
    ensures IdOk(Apply(c, s), r)
  {
    hide EntryDeadline;
    var d := Apply(c, s);
    if r in d.entries {
      assert r in c.entries;
      assert d.entries[r] == c.entries[r].(lastDispatch := d.entries[r].lastDispatch);
    }
  }

  lemma ClosedOk(c: Coordinator, now: Time, r: Id)
    requires IdOk(c, r)
    ensures IdOk(Apply(c, Close(now)), r)
  {
    hide EntryOk;
    if r in c.entries {
      BegunOk(c, Apply(c, Close(now)), r, now);
    }
  }

  lemma {:induction false} StepKeepsOk(c: Coordinator, s: Step, r: Id)
    requires Enabled(c, s) && IdOk(c, r)
    ensures IdOk(Apply(c, s), r)
  {
    hide IdOk, Apply;
    if s.Activate? || s.Observe? || s.Retire? || s.Reserve? {
      ProducersKeepOk(c, s, r);
    } else if s.Select? {
      SelectedOk(c, s, r);
    } else if s.Close? {
      ClosedOk(c, s.now, r);
    } else if s.StartWorker? || s.Capture? {
      BatchKeepsOk(c, s, r);
    } else {
      PollKeepsOk(c, s, r);
    }
  }

  ghost predicate Consistent(c: Coordinator) {
    && (forall r :: IdOk(c, r))
    && (forall o :: o in c.outcomes && o.state.Complete? ==> Finished(o.entry))
  }

  lemma OutcomesGrow(c: Coordinator, s: Step, o: Outcome)
    requires Enabled(c, s) && o in Apply(c, s).outcomes
    ensures o in c.outcomes || (o.runtime in c.entries && o == OutcomeOf(o.runtime, c.entries[o.runtime]))
  {}

  lemma {:induction false} StepConsistent(c: Coordinator, s: Step)
    requires Consistent(c) && Enabled(c, s)
    ensures Consistent(Apply(c, s))
  {
    hide IdOk, Apply, Enabled, Finished;
    var d := Apply(c, s);
    forall r ensures IdOk(d, r) {
      StepKeepsOk(c, s, r);
    }
    forall o | o in d.outcomes && o.state.Complete? ensures Finished(o.entry) {
      OutcomesGrow(c, s, o);
      if o !in c.outcomes {
        CompleteIsFinished(c, o.runtime);
      }
    }
  }

  lemma CompleteIsFinished(c: Coordinator, r: Id)
    requires IdOk(c, r) && r in c.entries
    ensures OutcomeOf(r, c.entries[r]).state.Complete? ==> Finished(c.entries[r])
  {}

  lemma {:induction false} RunConsistent(c: Coordinator, steps: seq<Step>)
    requires Consistent(c) && Runnable(c, steps)
    ensures Consistent(Run(c, steps))
    decreases |steps|
  {
    hide Consistent, Apply, Enabled;
    if steps != [] {
      StepConsistent(c, steps[0]);
      RunConsistent(Apply(c, steps[0]), steps[1..]);
    }
  }

  /**
   In every run: an outcome is complete only if a poll that captured its batch after the fence
   returned up to date with no event, thread id or reconcile request left.
   */
  lemma {:induction false} CompleteOnlyAfterFencedPoll(steps: seq<Step>, o: Outcome)
    requires Runnable(INITIAL, steps) && o in Run(INITIAL, steps).outcomes && o.state.Complete?
    ensures Finished(o.entry)
  {
    hide Run, Runnable, Finished, IdOk;
    InitialConsistent();
    RunConsistent(INITIAL, steps);
  }

  lemma InitialConsistent()
    ensures Consistent(INITIAL)
  {}

  /**
   In every run: a thread id recorded for an entry is pending, in the batch of the poll in flight, or
   was handed to a poll that returned -- also after a poll raised or the event queue overflowed.
   */
  lemma {:induction false} RecordedNeverLost(steps: seq<Step>, r: Id, thread: Thread)
    requires Runnable(INITIAL, steps) && r in Run(INITIAL, steps).entries
    requires thread in Run(INITIAL, steps).entries[r].recorded
    ensures var c := Run(INITIAL, steps);
            thread in c.entries[r].threads || thread in InFlight(c, r) || thread in c.entries[r].handed
  {
    hide Run, Runnable, Busy, Finished;
    InitialConsistent();
    RunConsistent(INITIAL, steps);
    assert IdOk(Run(INITIAL, steps), r);
  }

  /** Events wait in arrival order, those of the poll in flight first. */
  function Queue(c: Coordinator, r: Id): seq<Event> {
    (if c.phase.Polling? && c.phase.flight.runtime == r then c.phase.flight.events else [])
    + (if r in c.entries then c.entries[r].events else [])
  }

  /** Capturing a batch and giving it back after a failed poll keep the order of waiting events. */
  lemma {:induction false} QueueKeepsOrder(c: Coordinator, s: Step, r: Id)
    requires Enabled(c, s) && (s.Capture? || s.PollRaises?)
    ensures Queue(Apply(c, s), r) == Queue(c, r)
  {
    hide Emptied, Restored;
    EmptiedEvents(c);
    if s.Capture? && c.phase.runtime == r {
      assert c.entries[r].events + [] == [] + c.entries[r].events;
    } else if s.PollRaises? && c.phase.flight.runtime == r {
      assert [] + (c.phase.flight.events + c.entries[r].events) == c.phase.flight.events + c.entries[r].events;
    }
  }

  lemma EmptiedEvents(c: Coordinator)
    ensures forall e: Entry :: Emptied(e).events == []
    ensures forall e: Entry, f: Flight :: Restored(e, f).events == f.events + e.events
  {}

  // ---------------------------------------------------------------- fair dispatch

  /** Throughout the run the entry of `w` is due at every selection and not selected. */
  predicate Waits(c: Coordinator, steps: seq<Step>, w: Id)
    requires Runnable(c, steps)
    decreases |steps|
  {
    steps == []
    || (&& (steps[0].Select? ==> w in c.entries && Due(c.entries[w], steps[0].now) && steps[0].choice != Some(w))
        && Waits(Apply(c, steps[0]), steps[1..], w))
  }

  function Dispatches(c: Coordinator, steps: seq<Step>): nat
    requires Runnable(c, steps)
    decreases |steps|
  {
    if steps == [] then 0
    else (if steps[0].Select? && steps[0].choice.Some? then 1 else 0) + Dispatches(Apply(c, steps[0]), steps[1..])
  }

  /** Whether some selection of the run picks the entry object with this serial number. */
  predicate Picks(c: Coordinator, steps: seq<Step>, serial: nat)
    requires Runnable(c, steps)
    decreases |steps|
  {
    steps != []
    && ((steps[0].Select? && steps[0].choice.Some? && c.entries[steps[0].choice.value].serial == serial)
        || Picks(Apply(c, steps[0]), steps[1..], serial))
  }

  /** Serial numbers and dispatch numbers already given out; no two entries share a serial number. */
  predicate Numbered(c: Coordinator) {
    && (forall r :: r in c.entries ==> c.entries[r].serial < c.serials && c.entries[r].lastDispatch <= c.sequence)
    && (forall r, q :: r in c.entries && q in c.entries && r != q ==> c.entries[r].serial != c.entries[q].serial)
  }

  lemma {:induction false} StepNumbered(c: Coordinator, s: Step)
    requires Enabled(c, s) && Numbered(c)
    ensures Numbered(Apply(c, s))
  {
    var d := Apply(c, s);
    SerialsGrow(c, s);
    assert forall r :: r in d.entries ==>
      d.entries[r].serial < d.serials && d.entries[r].lastDispatch <= d.sequence by {
      forall r | r in d.entries ensures d.entries[r].serial < d.serials && d.entries[r].lastDispatch <= d.sequence {
        NumbersKept(c, s, r);
      }
    }
    forall r, q | r in d.entries && q in d.entries && r != q ensures d.entries[r].serial != d.entries[q].serial {
      NumbersKept(c, s, r);
      NumbersKept(c, s, q);
    }
  }

  lemma {:induction false} RunNumbered(c: Coordinator, steps: seq<Step>)
    requires Runnable(c, steps) && Numbered(c)
    ensures Numbered(Run(c, steps))
    decreases |steps|
  {
    hide Numbered, Apply, Enabled;
    if steps != [] {
      StepNumbered(c, steps[0]);
      RunNumbered(Apply(c, steps[0]), steps[1..]);
    }
  }

  lemma ScheduledSame(c: Coordinator)
    ensures forall e: Entry, result, wake, startedAt, now {:trigger Scheduled(e, result, wake, startedAt, now)} ::
      Scheduled(e, result, wake, startedAt, now).serial == e.serial
      && Scheduled(e, result, wake, startedAt, now).lastDispatch == e.lastDispatch
  {
    hide Min, Max, Retries, RetirementScheduled, RetryScheduled;
    RetirementSame();
    RetrySame();
  }

  lemma RetirementSame()
    ensures forall e: Entry, result, now {:trigger RetirementScheduled(e, result, now)} ::
      e.deadline.Some? && e.settleAt.Some? ==>
        RetirementScheduled(e, result, now).serial == e.serial
        && RetirementScheduled(e, result, now).lastDispatch == e.lastDispatch
  {
    hide Min, Max;
  }

  lemma RetrySame()
    ensures forall e: Entry, until, delay, now {:trigger RetryScheduled(e, until, delay, now)} ::
      RetryScheduled(e, until, delay, now).serial == e.serial
      && RetryScheduled(e, until, delay, now).lastDispatch == e.lastDispatch
  {
    hide Min;
  }

  /** Any step but a selection keeps every entry's numbers; new entries carry a new serial. */
  lemma NumbersKept(c: Coordinator, s: Step, r: Id)
    requires Enabled(c, s) && r in Apply(c, s).entries
    ensures var d := Apply(c, s);
            || (r in c.entries && d.entries[r].serial == c.entries[r].serial
                && (d.entries[r].lastDispatch == c.entries[r].lastDispatch
                    || (s.Select? && s.choice == Some(r) && d.entries[r].lastDispatch == c.sequence + 1)))
            || (s.Reserve? && s.runtime == r && r !in c.entries && d.entries[r] == NewEntry(s.reserved, c.serials))
  {
    hide Scheduled, EntryDeadline;
    ScheduledSame(c);
  }

  /** A waiting entry keeps its place: it is still there, undispatched. */
  lemma WaiterStays(c: Coordinator, s: Step, w: Id)
    requires Enabled(c, s) && w in c.entries
    requires s.Select? ==> Due(c.entries[w], s.now) && s.choice != Some(w)
    ensures w in Apply(c, s).entries
         && Apply(c, s).entries[w].lastDispatch == c.entries[w].lastDispatch
  {
    hide Scheduled, EntryDeadline;
    ScheduledSame(c);
  }

  /** The entries with this serial number come after the waiter in dispatch order. */
  predicate Behind(c: Coordinator, serial: nat, w: Id) {
    && w in c.entries && serial < c.serials && c.entries[w].lastDispatch <= c.sequence
    && forall r :: r in c.entries && c.entries[r].serial == serial ==>
         c.entries[r].lastDispatch > c.entries[w].lastDispatch
  }

  lemma {:induction false} StaysBehind(c: Coordinator, s: Step, serial: nat, w: Id)
    requires Enabled(c, s) && Behind(c, serial, w)
    requires s.Select? ==> Due(c.entries[w], s.now) && s.choice != Some(w)
    ensures Behind(Apply(c, s), serial, w)
    ensures s.Select? && s.choice.Some? ==> c.entries[s.choice.value].serial != serial
  {
    hide Due;
    WaiterStays(c, s, w);
    var d := Apply(c, s);
    assert d.serials >= c.serials && d.sequence >= c.sequence;
    forall r | r in d.entries && d.entries[r].serial == serial
      ensures d.entries[r].lastDispatch > d.entries[w].lastDispatch
    {
      NumbersKept(c, s, r);
    }
  }

  /** While an entry stays due and undispatched, no entry once dispatched is dispatched again. */
  lemma {:induction false} NotPickedAgain(c: Coordinator, steps: seq<Step>, serial: nat, w: Id)
    requires Runnable(c, steps) && Waits(c, steps, w) && Behind(c, serial, w)
    ensures !Picks(c, steps, serial)
    decreases |steps|
  {
    hide Behind, Enabled, Apply;
    if steps != [] {
      BehindHasWaiter(c, serial, w);
      StaysBehind(c, steps[0], serial, w);
      NotPickedAgain(Apply(c, steps[0]), steps[1..], serial, w);
    }
  }

  lemma BehindHasWaiter(c: Coordinator, serial: nat, w: Id)
    requires Behind(c, serial, w)
    ensures w in c.entries
  {}

  /** A dispatch puts the dispatched object behind every entry that was due with it. */
  lemma {:induction false} DispatchGoesBehind(c: Coordinator, s: Step, w: Id)
    requires Numbered(c) && Enabled(c, s) && s.Select? && s.choice.Some?
    requires w in c.entries && Due(c.entries[w], s.now) && s.choice != Some(w)
    ensures Behind(Apply(c, s), c.entries[s.choice.value].serial, w)
  {
    hide Due;
    WaiterStays(c, s, w);
    var d := Apply(c, s);
    forall r | r in d.entries && d.entries[r].serial == c.entries[s.choice.value].serial
      ensures d.entries[r].lastDispatch > d.entries[w].lastDispatch
    {
      NumbersKept(c, s, r);
    }
  }

  /** In any run: while `w` waits, the entry dispatched first is not dispatched a second time. */
  lemma {:induction false} DispatchedOnceWhileWaiting(before: seq<Step>, s: Step, steps: seq<Step>, w: Id)
    requires Runnable(INITIAL, before) && Enabled(Run(INITIAL, before), s)
    requires s.Select? && s.choice.Some? && s.choice != Some(w)
    requires var c := Run(INITIAL, before);
             && w in c.entries && Due(c.entries[w], s.now)
             && Runnable(Apply(c, s), steps) && Waits(Apply(c, s), steps, w)
    ensures !Picks(Apply(Run(INITIAL, before), s), steps, Run(INITIAL, before).entries[s.choice.value].serial)
  {
    hide Run, Due, Apply, Waits, Picks, Behind;
    RunNumbered(INITIAL, before);
    var c := Run(INITIAL, before);
    DispatchGoesBehind(c, s, w);
    NotPickedAgain(Apply(c, s), steps, c.entries[s.choice.value].serial, w);
  }

  /** The entries other than `w` that may still be dispatched before it. */
  function Ahead(c: Coordinator, w: Id): set<Id>
    requires w in c.entries
  {
    set r | r in c.entries && r != w && c.entries[r].lastDispatch <= c.entries[w].lastDispatch
  }

  lemma {:induction false} AheadShrinks(c: Coordinator, s: Step, w: Id)
    requires Enabled(c, s) && w in c.entries && c.entries[w].lastDispatch <= c.sequence
    requires s.Select? ==> Due(c.entries[w], s.now) && s.choice != Some(w)
    ensures w in Apply(c, s).entries && Apply(c, s).entries[w].lastDispatch <= Apply(c, s).sequence
    ensures var d := Apply(c, s);
            |Ahead(d, w)| + (if s.Select? && s.choice.Some? then 1 else 0) <= |Ahead(c, w)| + (d.serials - c.serials)
  {
    hide Due;
    WaiterStays(c, s, w);
    var d := Apply(c, s);
    assert d.sequence >= c.sequence;
    forall r | r in Ahead(d, w)
      ensures r in Ahead(c, w) || (s.Reserve? && r == s.runtime && d.serials == c.serials + 1)
    {
      NumbersKept(c, s, r);
    }
    if s.Select? && s.choice.Some? {
      var x := s.choice.value;
      assert x in Ahead(c, w);
      if x in d.entries {
        NumbersKept(c, s, x);
      }
      assert x !in Ahead(d, w);
      SubsetSize(Ahead(d, w), Ahead(c, w) - {x});
    } else if s.Reserve? {
      SubsetSize(Ahead(d, w), if d.serials == c.serials + 1 then Ahead(c, w) + {s.runtime} else Ahead(c, w));
    } else {
      SubsetSize(Ahead(d, w), Ahead(c, w));
    }
  }

  /**
   While an entry stays due and undispatched, the dispatches are bounded by the entries ahead of it
   plus the entries reserved meanwhile.
   */
  lemma {:induction false} WaitIsBounded(c: Coordinator, steps: seq<Step>, w: Id)
    requires Runnable(c, steps) && Waits(c, steps, w) && w in c.entries && c.entries[w].lastDispatch <= c.sequence
    ensures Run(c, steps).serials >= c.serials
    ensures Dispatches(c, steps) <= |Ahead(c, w)| + (Run(c, steps).serials - c.serials)
    decreases |steps|
  {
    hide Enabled, Apply, Ahead;
    if steps != [] {
      SerialsGrow(c, steps[0]);
      AheadShrinks(c, steps[0], w);
      WaitIsBounded(Apply(c, steps[0]), steps[1..], w);
    }
  }

  lemma SerialsGrow(c: Coordinator, s: Step)
    requires Enabled(c, s)
    ensures Apply(c, s).serials >= c.serials
  {}

  /** With n entries and no new reservation a due entry waits at most n - 1 dispatches. */
  lemma {:induction false} WaitsLessThanEntries(c: Coordinator, steps: seq<Step>, w: Id)
    requires Runnable(c, steps) && Waits(c, steps, w) && w in c.entries && c.entries[w].lastDispatch <= c.sequence
    requires Run(c, steps).serials == c.serials
    ensures Dispatches(c, steps) <= |c.entries| - 1
  {
    WaitIsBounded(c, steps, w);
    SubsetSize(Ahead(c, w), c.entries.Keys - {w});
  }
}
