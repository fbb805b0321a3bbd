/**
 The shared analytics coordinator: lock sections of its producers and of its single worker thread.

 Only the worker thread selects, polls and removes entries; events, activations, retirements and the
 close may fall between any two of its sections. A step count stands for the order of sections: it
 says when an entry was fenced and when a poll captured its batch.
 */
module Coordinator {
  import opened Wrappers

  const EVENT_LIMIT := 4096
  const QUIET := 0.5
  const MAX_BATCH := 5.0
  const RETRY_INITIAL := 0.5
  const MAX_RETRY_WINDOW := 5.0
  const RETIREMENT := 5.0
  const RESTART_DELAY := 2.0
  const MAX_STARTS := 2

  /** A runtime id by its place in the order of ids. */
  datatype Id = Id(rank: int)

  type Thread = int

  type Event = int

  type Time = real

  /** A configuration activated with its committed session identity, and the reservation it extends. */
  datatype Activation = Activation(reserved: int, session: int)

  /**
   One runtime's entry. The last five fields are history: the object's serial number, the thread ids
   ever recorded, those handed to a poll that returned, when producers were fenced, and when the last
   poll that returned up to date had captured its batch.
   */
  datatype Entry = Entry(
    reserved: int, config: Option<Activation>, worker: Option<nat>, events: seq<Event>, threads: set<Thread>,
    firstDirty: Option<Time>, lastDirty: Option<Time>, full: bool, nextRetry: Option<Time>,
    retryDeadline: Option<Time>, retryDelay: Time, starts: nat, disabled: bool, retiring: bool,
    deadline: Option<Time>, settleAt: Option<Time>, complete: bool, quiesced: bool, lastDispatch: nat,
    serial: nat, recorded: set<Thread>, handed: set<Thread>, fencedAt: Option<nat>, attestedBy: Option<nat>)

  datatype Flight = Flight(runtime: Id, events: seq<Event>, threads: set<Thread>, full: bool, startedAt: Time,
                           capturedAt: nat)

  /** Where the worker thread is. */
  datatype Phase = Idle | Selected(runtime: Id) | Polling(flight: Flight) | Failing(runtime: Id)

  datatype State = Inactive | Complete | Incomplete

  datatype Outcome = Outcome(runtime: Id, state: State, entry: Entry)

  datatype Coordinator = Coordinator(
    entries: map<Id, Entry>, closing: bool, sequence: nat, phase: Phase, outcomes: set<Outcome>,
    clock: nat, serials: nat)

  const INITIAL := Coordinator(map[], false, 0, Idle, {}, 0, 0)

  datatype PollResult = UpToDate | CleanReplay | RecoveryWait | RetryLater | Settled

  // ---------------------------------------------------------------- sections on one entry

  function NewEntry(reserved: int, serial: nat): Entry {
    Entry(reserved, None, None, [], {}, None, None, false, None, None, RETRY_INITIAL, 0, false, false, None, None,
          false, false, 0, serial, {}, {}, None, None)
  }

  predicate Sealed(e: Entry) {
    e.retiring && e.quiesced
  }

  function Recorded(e: Entry, thread: Thread, event: Event, now: Time): Entry {
    if Sealed(e) then e
    else
      var dirty := e.(threads := e.threads + {thread}, recorded := e.recorded + {thread},
                      firstDirty := if e.firstDirty.None? then Some(now) else e.firstDirty, lastDirty := Some(now));
      if |e.events| >= EVENT_LIMIT then dirty.(events := [], full := true) else dirty.(events := e.events + [event])
  }

  function Activated(e: Entry, config: Activation, now: Time): Entry {
    e.(config := Some(config), full := true, firstDirty := Some(now), lastDirty := Some(now), disabled := false)
  }

  function RetirementBegun(e: Entry, now: Time): Entry {
    if e.retiring then e
    else e.(retiring := true, deadline := Some(now + RETIREMENT), settleAt := Some(now + QUIET), full := true,
            firstDirty := Some(now), lastDirty := Some(now), nextRetry := None)
  }

  function Min(a: Time, b: Time): Time {
    if a <= b then a else b
  }

  function Max(a: Time, b: Time): Time {
    if a >= b then a else b
  }

  /** `begin` and `now` are the two readings of the clock. */
  function Fenced(e: Entry, begin: Time, now: Time, clock: nat): Entry {
    var b := RetirementBegun(e.(quiesced := true), begin);
    if e.quiesced then b
    else b.(full := true, firstDirty := Some(now), lastDirty := Some(now), nextRetry := None, complete := false,
            settleAt := Some(if b.deadline.Some? then Min(now + QUIET, b.deadline.value) else now + QUIET),
            fencedAt := Some(clock))
  }

  function EntryDeadline(e: Entry, now: Time): Option<Time> {
    if e.worker.None? then (if e.nextRetry.Some? then e.nextRetry else Some(now))
    else if e.nextRetry.Some? then e.nextRetry
    else if e.full && e.firstDirty.Some? then e.firstDirty
    else if e.firstDirty.None? || e.lastDirty.None? then None
    else Some(Min(e.lastDirty.value + QUIET, e.firstDirty.value + MAX_BATCH))
  }

  predicate Retirable(e: Entry, now: Time) {
    e.retiring && (e.config.None? || e.disabled || e.complete || (e.deadline.Some? && now >= e.deadline.value))
  }

  predicate Due(e: Entry, now: Time) {
    && !Retirable(e, now) && e.config.Some? && !e.disabled
    && EntryDeadline(e, now).Some? && EntryDeadline(e, now).value <= now
  }

  function OutcomeOf(r: Id, e: Entry): Outcome {
    Outcome(r, if e.config.None? then Inactive else if e.complete then Complete else Incomplete, e)
  }

  function Emptied(e: Entry): Entry {
    e.(events := [], threads := {}, firstDirty := None, lastDirty := None, full := false, nextRetry := None)
  }

  /** A dirty time of zero counts as absent. */
  function StartOf(e: Entry, now: Time): Time {
    if e.firstDirty.Some? && e.firstDirty.value != 0.0 then e.firstDirty.value else now
  }

  function Restored(e: Entry, f: Flight): Entry {
    e.(events := f.events + e.events, threads := e.threads + f.threads, full := true)
  }

  function StartFailed(e: Entry, now: Time): Entry {
    var retry := e.starts + 1 < MAX_STARTS;
    e.(starts := e.starts + 1, nextRetry := if retry then Some(now + RESTART_DELAY) else None, disabled := !retry)
  }

  predicate Retries(result: PollResult) {
    result.CleanReplay? || result.RetryLater?
  }

  /** A retiring entry after a poll: complete, settling, or polled again before its deadline. */
  function RetirementScheduled(e: Entry, result: PollResult, now: Time): Entry
    requires e.deadline.Some? && e.settleAt.Some?
  {
    if result.UpToDate? && e.events == [] && !e.full then
      if now >= e.settleAt.value && e.quiesced then e.(complete := true)
      else e.(nextRetry := Some(Min(Max(e.settleAt.value, now + QUIET), e.deadline.value)), full := true)
    else e.(nextRetry := Some(Min(now + e.retryDelay, e.deadline.value)), retryDelay := e.retryDelay * 2.0)
  }

  /** The next retry within the window, or none at its end. */
  function RetryScheduled(e: Entry, until: Time, delay: Time, now: Time): Entry {
    if now >= until then e.(nextRetry := None, retryDeadline := None, retryDelay := delay)
    else e.(nextRetry := Some(Min(now + delay, until)), retryDeadline := Some(until), retryDelay := delay * 2.0)
  }

  /** `wake` is the worker's own recovery deadline. */
  function Scheduled(e: Entry, result: PollResult, wake: Option<Time>, startedAt: Time, now: Time): Entry {
    var s := e.(starts := 0);
    if (result.CleanReplay? || result.RecoveryWait?) && wake.Some? then
      s.(nextRetry := Some(if e.retiring && e.deadline.Some? then Min(wake.value, e.deadline.value) else wake.value),
         retryDeadline := None)
    else if e.retiring && e.deadline.Some? && e.settleAt.Some? then RetirementScheduled(s, result, now)
    else if !Retries(result) then s.(nextRetry := None, retryDeadline := None, retryDelay := RETRY_INITIAL)
    else if e.retryDeadline.Some? then RetryScheduled(s, e.retryDeadline.value, e.retryDelay, now)
    else RetryScheduled(s, Max(now, startedAt) + MAX_RETRY_WINDOW, RETRY_INITIAL, now)
  }

  /** What the entry remembers of a returned poll besides its schedule. */
  function Attested(e: Entry, f: Flight, result: PollResult): Entry {
    e.(handed := e.handed + f.threads, attestedBy := if result.UpToDate? then Some(f.capturedAt) else e.attestedBy)
  }

  // ---------------------------------------------------------------- steps

  datatype Step =
    | Reserve(runtime: Id, reserved: int)
    | Activate(runtime: Id, config: Activation, now: Time)
    | Observe(runtime: Id, thread: Thread, event: Event, now: Time)
    | Retire(runtime: Id, begin: Time, now: Time)
    | Close(now: Time)
    | Select(now: Time, choice: Option<Id>)
    | StartWorker(started: bool, now: Time)
    | Capture(now: Time)
    | PollRaises
    | RecordFailure(now: Time)
    | PollReturns(result: PollResult, wake: Option<Time>, now: Time)

  /** Dispatch order: least recently dispatched first, then by id. */
  predicate Precedes(d: nat, r: Id, e: nat, s: Id) {
    d < e || (d == e && r.rank <= s.rank)
  }

  predicate Chosen(entries: map<Id, Entry>, now: Time, choice: Option<Id>) {
    if choice.None? then forall r :: r in entries ==> !Due(entries[r], now)
    else
      && choice.value in entries && Due(entries[choice.value], now)
      && forall r :: r in entries && Due(entries[r], now) ==>
           Precedes(entries[choice.value].lastDispatch, choice.value, entries[r].lastDispatch, r)
  }

  predicate Enabled(c: Coordinator, s: Step) {
    match s
    case Reserve(_, _) => true
    case Activate(_, _, _) => true
    case Observe(_, _, _, _) => true
    case Retire(_, _, _) => true
    case Close(_) => true
    case Select(now, choice) => c.phase.Idle? && Chosen(c.entries, now, choice)
    case StartWorker(_, _) =>
      c.phase.Selected? && c.phase.runtime in c.entries && c.entries[c.phase.runtime].worker.None?
    case Capture(_) => c.phase.Selected? && c.phase.runtime in c.entries && c.entries[c.phase.runtime].worker.Some?
    case PollRaises => c.phase.Polling? && c.phase.flight.runtime in c.entries
    case RecordFailure(_) => c.phase.Failing? && c.phase.runtime in c.entries
    case PollReturns(_, _, _) => c.phase.Polling? && c.phase.flight.runtime in c.entries
  }

  function Update(c: Coordinator, r: Id, e: Entry): Coordinator {
    c.(entries := c.entries[r := e])
  }

  function Retirees(entries: map<Id, Entry>, now: Time): set<Id> {
    set r | r in entries && Retirable(entries[r], now)
  }

  datatype Reservation = Admitted | Repeated | Closing | Taken

  /** A repeated reservation succeeds while it is the same one and not retiring. */
  function Reserving(c: Coordinator, r: Id, reserved: int): Reservation {
    if c.closing then Closing
    else if r !in c.entries then Admitted
    else if c.entries[r].reserved == reserved && !c.entries[r].retiring then Repeated
    else Taken
  }

  /** A live reservation is activated by a configuration that extends it, and never by two. */
  predicate Activates(c: Coordinator, r: Id, config: Activation) {
    && r in c.entries && !c.entries[r].retiring && config.reserved == c.entries[r].reserved
    && c.entries[r].config in {None, Some(config)}
  }

  function Act(c: Coordinator, s: Step): Coordinator
    requires Enabled(c, s)
  {
    match s
    case Reserve(r, reserved) =>
      if !Reserving(c, r, reserved).Admitted? then c
      else Update(c, r, NewEntry(reserved, c.serials)).(serials := c.serials + 1)
    case Activate(r, config, now) =>
      if !Activates(c, r, config) then c else Update(c, r, Activated(c.entries[r], config, now))
    case Observe(r, thread, event, now) =>
      if r !in c.entries then c else Update(c, r, Recorded(c.entries[r], thread, event, now))
    case Retire(r, begin, now) =>
      if r !in c.entries then c else Update(c, r, Fenced(c.entries[r], begin, now, c.clock))
    case Close(now) =>
      c.(closing := true, entries := map r | r in c.entries :: RetirementBegun(c.entries[r], now))
    case Select(now, choice) =>
      var gone := Retirees(c.entries, now);
      var kept := c.(entries := c.entries - gone,
                     outcomes := c.outcomes + set r | r in gone :: OutcomeOf(r, c.entries[r]));
      if choice.None? then kept
      else
        Update(kept, choice.value, c.entries[choice.value].(lastDispatch := c.sequence + 1))
          .(sequence := c.sequence + 1, phase := Selected(choice.value))
    case StartWorker(started, now) =>
      var r := c.phase.runtime;
      if started then Update(c, r, c.entries[r].(worker := Some(c.clock), nextRetry := None))
      else Update(c, r, StartFailed(c.entries[r], now)).(phase := Idle)
    case Capture(now) =>
      var r := c.phase.runtime;
      var e := c.entries[r];
      Update(c, r, Emptied(e))
        .(phase := Polling(Flight(r, e.events, e.threads, e.full, StartOf(e, now), c.clock)))
    case PollRaises =>
      var f := c.phase.flight;
      Update(c, f.runtime, Restored(c.entries[f.runtime], f)).(phase := Failing(f.runtime))
    case RecordFailure(now) =>
      var r := c.phase.runtime;
      Update(c, r, StartFailed(c.entries[r], now).(worker := None)).(phase := Idle)
    case PollReturns(result, wake, now) =>
      var f := c.phase.flight;
      Update(c, f.runtime,
             Scheduled(Attested(c.entries[f.runtime], f, result), result, wake, f.startedAt, now)).(phase := Idle)
  }

  function Apply(c: Coordinator, s: Step): Coordinator
    requires Enabled(c, s)
  {
    Act(c, s).(clock := c.clock + 1)
  }

  predicate Runnable(c: Coordinator, steps: seq<Step>)
    decreases |steps|
  {
    steps == [] || (Enabled(c, steps[0]) && Runnable(Apply(c, steps[0]), steps[1..]))
  }

  function Run(c: Coordinator, steps: seq<Step>): Coordinator
    requires Runnable(c, steps)
    decreases |steps|
  {
    if steps == [] then c else Run(Apply(c, steps[0]), steps[1..])
  }
}
