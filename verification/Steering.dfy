/**
 Context-threshold steering: each lock-protected section as one atomic step.

 Dispatcher threads run their sections at any time and with any attempt and request, so every
 interleaving of timers, admissions, observations, disconnects and closes is a run of `Step`.
 */
module Steering {
  import opened Wrappers

  /** Thread, turn, connection and item ids; only their equality matters. */
  type Id = int

  const BINDING_RETRIES := 3

  /** An attempt; its generation is part of its dispatch id, so equal attempts are the same attempt. */
  datatype Attempt = Attempt(thread: Id, turn: Id, percent: real, generation: nat)

  datatype State = State(
    root: Option<Id>, registered: Option<Id>, connection: Option<Id>,
    ready: bool, turn: Option<Id>, percent: Option<real>,
    armed: bool, retries: nat, compacting: set<Id>,
    pending: Option<Attempt>, timer: Option<nat>,
    requests: map<nat, Attempt>, admitted: set<nat>, lastCompleted: Option<Attempt>,
    generation: nat, closed: bool)

  const INITIAL := State(None, None, None, false, None, None, true, 0, {}, None, None, map[], {}, None, 0, false)

  /** A request at the final send boundary; `ours` is the steering source, `generation` its dispatch id. */
  datatype Request = Request(
    id: nat, ours: bool, steer: bool, thread: Id, turn: Id, generation: nat, textMatches: bool)

  datatype Outcome = Raised | Completed | RejectedUnbound | RejectedOtherwise

  datatype Event =
    | BindRoot(thread: Id)
    | BindPrimary(primary: Option<Id>, connection: Option<Id>)
    | TurnStarted(thread: Id, connection: Option<Id>, started: Option<Id>)
    | TurnCompleted(thread: Id, connection: Option<Id>, completed: Option<Id>)
    | StatusChanged(thread: Id, connection: Option<Id>, inactive: bool)
    | CompactionStarted(thread: Id, connection: Option<Id>, item: Id)
    | CompactionCompleted(thread: Id, connection: Option<Id>, item: Id)
    | Percent(thread: Id, connection: Option<Id>, value: real)
    | TimerFired(generation: nat)
    | Register(attempt: Attempt, request: nat)
    | Admit(final: Request)
    | Finish(attempt: Attempt, request: nat, outcome: Outcome)
    | StartFailed(generation: nat)
    | Disconnect
    | Close

  // ---------------------------------------------------------------- the lock sections

  function Cleared(s: State): State {
    s.(generation := s.generation + 1, pending := None, timer := None)
  }

  predicate Schedulable(s: State, limit: real) {
    && !s.closed && s.ready && s.root.Some? && s.turn.Some?
    && s.percent.Some? && s.percent.value >= limit
    && s.armed && s.compacting == {} && s.pending.None?
  }

  function Scheduled(s: State, limit: real): State {
    if !Schedulable(s, limit) then s
    else
      var generation := s.generation + 1;
      s.(generation := generation, timer := Some(generation),
         pending := Some(Attempt(s.root.value, s.turn.value, s.percent.value, generation)))
  }

  predicate Accepts(s: State, thread: Id, connection: Option<Id>) {
    !s.closed && connection.Some? && connection == s.connection && s.root == Some(thread)
  }

  function AfterBindRoot(s: State, thread: Id, limit: real): State {
    if s.closed then s
    else
      var bound := s.(registered := Some(thread), ready := s.root == Some(thread) && s.connection.Some?);
      Scheduled(if bound.ready then bound else Cleared(bound), limit)
  }

  function AfterBindPrimary(s: State, primary: Option<Id>, connection: Option<Id>): State {
    if s.closed || (primary == s.root && connection == s.connection) then s
    else
      Cleared(s).(
        armed := s.armed || (primary.Some? && primary != s.registered),
        root := primary, connection := connection,
        ready := connection.Some? && primary.Some? && primary == s.registered,
        turn := None, percent := None, retries := 0, compacting := {})
  }

  function AfterTurnStarted(s: State, started: Option<Id>, limit: real): State {
    if started.None? then s
    else
      var kept := if s.turn.Some? && s.turn != started then Cleared(s) else s;
      Scheduled(kept.(turn := started), limit)
  }

  function Idle(s: State): State { Cleared(s).(turn := None, compacting := {}) }

  function AfterPercent(s: State, value: real, limit: real): State {
    if s.compacting != {} then s
    else
      var read := s.(percent := Some(value));
      if value < limit then Cleared(read).(armed := true, retries := 0) else Scheduled(read, limit)
  }

  predicate Fires(s: State, generation: nat) {
    !s.closed && generation == s.generation && s.pending.Some? && s.timer.Some?
  }

  /** The final recheck at the send boundary. */
  predicate Admissible(s: State, r: Request, limit: real) {
    && r.ours && r.id in s.requests
    && var attempt := s.requests[r.id];
       && !s.closed && attempt.generation == s.generation && s.pending == Some(attempt) && s.ready
       && s.root == Some(attempt.thread) && s.turn == Some(attempt.turn) && s.compacting == {}
       && s.percent.Some? && s.percent.value >= limit
       && r.steer && r.thread == attempt.thread && r.turn == attempt.turn
       && r.generation == attempt.generation && r.textMatches
  }

  function AfterAdmit(s: State, r: Request, limit: real): State {
    if !r.ours then s
    else
      var popped := s.(requests := s.requests - {r.id});
      if !Admissible(s, r, limit) then popped
      else Cleared(popped.(admitted := s.admitted + {r.id}, armed := false))
  }

  predicate Retries(s: State, attempt: Attempt, request: nat, outcome: Outcome) {
    && attempt.generation == s.generation && s.pending == Some(attempt)
    && request !in s.admitted && outcome.RejectedUnbound? && s.retries < BINDING_RETRIES
  }

  function AfterFinish(s: State, attempt: Attempt, request: nat, outcome: Outcome, limit: real): State {
    var wasAdmitted := request in s.admitted;
    var popped := s.(requests := s.requests - {request}, admitted := s.admitted - {request},
                     lastCompleted := if wasAdmitted && outcome.Completed? then Some(attempt) else s.lastCompleted);
    if attempt.generation != s.generation || s.pending != Some(attempt) then popped
    else if Retries(s, attempt, request, outcome) then Scheduled(Cleared(popped).(retries := s.retries + 1), limit)
    else Cleared(popped).(armed := false)
  }

  function Step(s: State, e: Event, limit: real): State {
    match e
    case BindRoot(thread) => AfterBindRoot(s, thread, limit)
    case BindPrimary(primary, connection) => AfterBindPrimary(s, primary, connection)
    case TurnStarted(thread, connection, started) =>
      if Accepts(s, thread, connection) then AfterTurnStarted(s, started, limit) else s
    case TurnCompleted(thread, connection, completed) =>
      if Accepts(s, thread, connection) && (s.turn.None? || completed == s.turn) then Idle(s) else s
    case StatusChanged(thread, connection, inactive) =>
      if Accepts(s, thread, connection) && inactive then Idle(s) else s
    case CompactionStarted(thread, connection, item) =>
      if Accepts(s, thread, connection)
      then Cleared(s).(compacting := s.compacting + {item}, percent := None, armed := false) else s
    case CompactionCompleted(thread, connection, item) =>
      if Accepts(s, thread, connection) then s.(compacting := s.compacting - {item}) else s
    case Percent(thread, connection, value) =>
      if Accepts(s, thread, connection) then AfterPercent(s, value, limit) else s
    case TimerFired(generation) => if Fires(s, generation) then s.(timer := None) else s
    case Register(attempt, request) =>
      if !s.closed && attempt.generation == s.generation && s.pending == Some(attempt)
      then s.(requests := s.requests[request := attempt]) else s
    case Admit(final) => AfterAdmit(s, final, limit)
    case Finish(attempt, request, outcome) => AfterFinish(s, attempt, request, outcome, limit)
    case StartFailed(generation) => if s.timer == Some(generation) then Cleared(s).(armed := true) else s
    case Disconnect =>
      if s.closed then s
      else Cleared(s).(root := None, connection := None, ready := false, turn := None, percent := None,
                       compacting := {})
    case Close =>
      if s.closed then s else Cleared(s).(closed := true, turn := None, percent := None, compacting := {})
  }

  // ---------------------------------------------------------------- what every step keeps

  /** A pending attempt is armed and current in every respect the final recheck asks about. */
  predicate Consistent(s: State, limit: real) {
    && s.retries <= BINDING_RETRIES
    && (s.ready ==> s.root.Some? && s.connection.Some?)
    && (s.timer.Some? ==> s.pending.Some? && s.timer.value == s.generation)
    && (s.pending.Some? ==>
          && s.armed && !s.closed && s.ready
          && s.pending.value.generation == s.generation
          && s.root == Some(s.pending.value.thread) && s.turn == Some(s.pending.value.turn)
          && s.compacting == {} && s.percent.Some? && s.percent.value >= limit)
  }

  /** Consistent, and no generation is ever used again. */
  predicate Follows(s: State, t: State, limit: real) {
    Consistent(t, limit) && s.generation <= t.generation
  }

  /** Whatever changed besides, a cleared state has nothing pending that could be out of date. */
  lemma ClearedFollows(s: State, t: State, limit: real)
    requires t.pending.None? && t.timer.None? && s.generation <= t.generation
    requires t.retries <= BINDING_RETRIES && (t.ready ==> t.root.Some? && t.connection.Some?)
    ensures Follows(s, t, limit)
  {}

  lemma ScheduledFollows(s: State, t: State, limit: real)
    requires Consistent(t, limit) && s.generation <= t.generation
    ensures Follows(s, Scheduled(t, limit), limit)
  {}

  lemma BindRootFollows(s: State, thread: Id, limit: real)
    requires Consistent(s, limit)
    ensures Follows(s, AfterBindRoot(s, thread, limit), limit)
  {
    hide Scheduled;
    if !s.closed {
      var bound := s.(registered := Some(thread), ready := s.root == Some(thread) && s.connection.Some?);
      ScheduledFollows(s, if bound.ready then bound else Cleared(bound), limit);
    }
  }

  lemma BindPrimaryFollows(s: State, primary: Option<Id>, connection: Option<Id>, limit: real)
    requires Consistent(s, limit)
    ensures Follows(s, AfterBindPrimary(s, primary, connection), limit)
  {}

  lemma TurnStartedFollows(s: State, started: Option<Id>, limit: real)
    requires Consistent(s, limit)
    ensures Follows(s, AfterTurnStarted(s, started, limit), limit)
  {
    hide Scheduled;
    if started.Some? {
      var kept := if s.turn.Some? && s.turn != started then Cleared(s) else s;
      ScheduledFollows(s, kept.(turn := started), limit);
    }
  }

  lemma PercentFollows(s: State, value: real, limit: real)
    requires Consistent(s, limit)
    ensures Follows(s, AfterPercent(s, value, limit), limit)
  {
    hide Scheduled;
    if s.compacting == {} && value >= limit {
      ScheduledFollows(s, s.(percent := Some(value)), limit);
    }
  }

  lemma AdmitFollows(s: State, r: Request, limit: real)
    requires Consistent(s, limit)
    ensures Follows(s, AfterAdmit(s, r, limit), limit)
  {
    hide Admissible;
  }

  lemma FinishFollows(s: State, attempt: Attempt, request: nat, outcome: Outcome, limit: real)
    requires Consistent(s, limit)
    ensures Follows(s, AfterFinish(s, attempt, request, outcome, limit), limit)
  {
    hide Scheduled;
    if Retries(s, attempt, request, outcome) {
      FinishRetries(s, attempt, request, outcome, limit);
    }
  }

  lemma FinishRetries(s: State, attempt: Attempt, request: nat, outcome: Outcome, limit: real)
    requires Consistent(s, limit) && Retries(s, attempt, request, outcome)
    ensures Follows(s, AfterFinish(s, attempt, request, outcome, limit), limit)
  {
    hide Scheduled;
    var popped := s.(requests := s.requests - {request}, admitted := s.admitted - {request});
    ScheduledFollows(s, Cleared(popped).(retries := s.retries + 1), limit);
  }

  /** Every lock section keeps the state consistent and never lowers the generation. */
  lemma {:induction false} StepConsistent(s: State, e: Event, limit: real)
    requires Consistent(s, limit)
    ensures Consistent(Step(s, e, limit), limit)
    ensures s.generation <= Step(s, e, limit).generation
  {
    hide AfterBindRoot, AfterBindPrimary, AfterTurnStarted, AfterPercent, AfterAdmit, AfterFinish;
    match e
    case BindRoot(thread) => BindRootFollows(s, thread, limit);
    case BindPrimary(primary, connection) => BindPrimaryFollows(s, primary, connection, limit);
    case TurnStarted(_, _, started) => TurnStartedFollows(s, started, limit);
    case TurnCompleted(_, _, _) => ClearedFollows(s, Idle(s), limit);
    case StatusChanged(_, _, _) => ClearedFollows(s, Idle(s), limit);
    case CompactionStarted(_, _, item) =>
      ClearedFollows(s, Cleared(s).(compacting := s.compacting + {item}, percent := None, armed := false), limit);
    case CompactionCompleted(_, _, _) =>
    case Percent(_, _, value) => PercentFollows(s, value, limit);
    case TimerFired(_) =>
    case Register(_, _) =>
    case Admit(final) => AdmitFollows(s, final, limit);
    case Finish(attempt, request, outcome) => FinishFollows(s, attempt, request, outcome, limit);
    case StartFailed(_) => ClearedFollows(s, Cleared(s).(armed := true), limit);
    case Disconnect =>
    case Close =>
  }

  /** The only ways to arm a consumed crossing: an accepted reading below the limit, or a new main thread. */
  predicate IsRearm(s: State, e: Event, limit: real) {
    || (e.Percent? && Accepts(s, e.thread, e.connection) && s.compacting == {} && e.value < limit)
    || (e.BindPrimary? && !s.closed && e.primary.Some? && e.primary != s.registered
        && (e.primary != s.root || e.connection != s.connection))
  }

  lemma OnlyRearmsArm(s: State, e: Event, limit: real)
    requires Consistent(s, limit) && !s.armed && Step(s, e, limit).armed
    ensures IsRearm(s, e, limit)
  {
  }

  /** An admission needs an armed crossing and consumes it. */
  lemma AdmissionConsumes(s: State, r: Request, limit: real)
    requires Consistent(s, limit) && Admissible(s, r, limit)
    ensures s.armed && !Step(s, Admit(r), limit).armed
  {
  }

  /**
   The final recheck is exact: a registered request whose fields match its attempt is admitted if and
   only if that attempt is still the pending one.
   */
  lemma AdmittedIffPending(s: State, r: Request, limit: real)
    requires Consistent(s, limit) && r.ours && r.id in s.requests
    requires var a := s.requests[r.id];
      r.steer && r.textMatches && r.thread == a.thread && r.turn == a.turn && r.generation == a.generation
    ensures Admissible(s, r, limit) <==> s.pending == Some(s.requests[r.id])
  {
  }

  /** Callbacks and dispatchers of an older generation change nothing but their own bookkeeping. */
  lemma StaleGenerationsInert(s: State, limit: real, attempt: Attempt, request: nat, outcome: Outcome, r: Request)
    requires Consistent(s, limit) && attempt.generation != s.generation
    ensures Step(s, TimerFired(attempt.generation), limit) == s
    ensures Step(s, Register(attempt, request), limit) == s
    ensures r.id in s.requests && s.requests[r.id] == attempt ==> !Admissible(s, r, limit)
    ensures
      var t := Step(s, Finish(attempt, request, outcome), limit);
      t == s.(requests := t.requests, admitted := t.admitted, lastCompleted := t.lastCompleted)
  {
  }

  // ---------------------------------------------------------------- safety over whole runs

  /** The state after the first `n` events of a run. */
  function After(events: seq<Event>, n: nat, limit: real): State
    requires n <= |events|
  {
    if n == 0 then INITIAL else Step(After(events, n - 1, limit), events[n - 1], limit)
  }

  lemma {:induction false} RunConsistent(events: seq<Event>, n: nat, limit: real)
    requires n <= |events|
    ensures Consistent(After(events, n, limit), limit)
  {
    if n > 0 {
      RunConsistent(events, n - 1, limit);
      StepConsistent(After(events, n - 1, limit), events[n - 1], limit);
    }
  }

  predicate AdmitsAt(events: seq<Event>, i: nat, limit: real)
    requires i < |events|
  {
    events[i].Admit? && Admissible(After(events, i, limit), events[i].final, limit)
  }

  predicate RearmsAt(events: seq<Event>, i: nat, limit: real)
    requires i < |events|
  {
    IsRearm(After(events, i, limit), events[i], limit)
  }

  /** From a disarmed point to an armed one there is a re-arm. */
  lemma {:induction false} ArmedAgainNeedsRearm(events: seq<Event>, i: nat, j: nat, limit: real) returns (k: nat)
    requires i <= j <= |events| && !After(events, i, limit).armed && After(events, j, limit).armed
    ensures i <= k < j && RearmsAt(events, k, limit)
    decreases j
  {
    if After(events, j - 1, limit).armed {
      k := ArmedAgainNeedsRearm(events, i, j - 1, limit);
    } else {
      k := j - 1;
      RunConsistent(events, k, limit);
      OnlyRearmsArm(After(events, k, limit), events[k], limit);
    }
  }

  /** In every run, between two admitted steers there is a re-arm: at most one steer per crossing. */
  lemma AtMostOneSteerPerCrossing(events: seq<Event>, i: nat, j: nat, limit: real)
    requires i < j < |events| && AdmitsAt(events, i, limit) && AdmitsAt(events, j, limit)
    ensures exists k :: i < k < j && RearmsAt(events, k, limit)
  {
    RunConsistent(events, i, limit);
    RunConsistent(events, j, limit);
    AdmissionConsumes(After(events, i, limit), events[i].final, limit);
    AdmissionConsumes(After(events, j, limit), events[j].final, limit);
    var k := ArmedAgainNeedsRearm(events, i + 1, j, limit);
  }

  predicate RetriesAt(events: seq<Event>, i: nat, limit: real)
    requires i < |events|
  {
    events[i].Finish? && Retries(After(events, i, limit), events[i].attempt, events[i].request, events[i].outcome)
  }

  /** The events that restart the retry count. */
  predicate ResetsRetries(s: State, e: Event, limit: real) {
    || (e.Percent? && Accepts(s, e.thread, e.connection) && s.compacting == {} && e.value < limit)
    || (e.BindPrimary? && !s.closed && (e.primary != s.root || e.connection != s.connection))
  }

  function RetryCount(events: seq<Event>, i: nat, j: nat, limit: real): nat
    requires i <= j <= |events|
    decreases j
  {
    if i == j then 0 else RetryCount(events, i, j - 1, limit) + (if RetriesAt(events, j - 1, limit) then 1 else 0)
  }

  lemma StepRetries(s: State, e: Event, limit: real)
    requires !ResetsRetries(s, e, limit)
    ensures Step(s, e, limit).retries ==
      s.retries + (if e.Finish? && Retries(s, e.attempt, e.request, e.outcome) then 1 else 0)
  {
  }

  lemma {:induction false} RetriesAccumulate(events: seq<Event>, i: nat, j: nat, limit: real)
    requires i <= j <= |events|
    requires forall k :: i <= k < j ==> !ResetsRetries(After(events, k, limit), events[k], limit)
    ensures After(events, j, limit).retries == After(events, i, limit).retries + RetryCount(events, i, j, limit)
    decreases j
  {
    hide Step, ResetsRetries, Retries;
    if i < j {
      RetriesAccumulate(events, i, j - 1, limit);
      StepRetries(After(events, j - 1, limit), events[j - 1], limit);
    }
  }

  /** In every run at most three binding retries happen between two resets of the retry count. */
  lemma AtMostThreeRetries(events: seq<Event>, i: nat, j: nat, limit: real)
    requires i <= j <= |events|
    requires forall k :: i <= k < j ==> !ResetsRetries(After(events, k, limit), events[k], limit)
    ensures RetryCount(events, i, j, limit) <= BINDING_RETRIES
  {
    RunConsistent(events, j, limit);
    RetriesAccumulate(events, i, j, limit);
  }

  // ---------------------------------------------------------------- the controller

  /** The lock-guarded fields; every method below is one lock section of the source. */
  class ContextThresholdSteeringController {
    const limit: real
    var root: Option<Id>
    var registered: Option<Id>
    var connection: Option<Id>
    var ready: bool
    var turn: Option<Id>
    var percent: Option<real>
    var armed: bool
    var retries: nat
    var compacting: set<Id>
    var pending: Option<Attempt>
    var timer: Option<nat>
    var requests: map<nat, Attempt>
    var admitted: set<nat>
    var lastCompleted: Option<Attempt>
    var generation: nat
    var closed: bool

    ghost function Model(): State
      reads this
    {
      State(root, registered, connection, ready, turn, percent, armed, retries, compacting, pending, timer,
            requests, admitted, lastCompleted, generation, closed)
    }

    ghost predicate Valid()
      reads this
    {
      Consistent(Model(), limit)
    }

    constructor (limit: real)
      ensures Valid() && Model() == INITIAL && this.limit == limit
    {
      this.limit := limit;
      root, registered, connection, ready, turn, percent := None, None, None, false, None, None;
      armed, retries, compacting, pending, timer := true, 0, {}, None, None;
      requests, admitted, lastCompleted, generation, closed := map[], {}, None, 0, false;
    }

    method ClearPending()
      modifies this`generation, this`pending, this`timer
      ensures generation == old(generation) + 1 && pending == None && timer == None
    {
      generation := generation + 1;
      pending, timer := None, None;
    }

    /** Nothing is known any more about the active turn, its usage or its compactions. */
    method ForgetTurn()
      modifies this`turn, this`percent, this`compacting
      ensures turn == None && percent == None && compacting == {}
    {
      turn, percent, compacting := None, None, {};
    }

    /** The turn is over for this controller: no attempt, no reading. */
    method AbandonTurn()
      modifies this`generation, this`pending, this`timer, this`turn, this`percent, this`compacting
      ensures generation == old(generation) + 1 && pending == None && timer == None
      ensures turn == None && percent == None && compacting == {}
    {
      ClearPending();
      ForgetTurn();
    }

    method AdoptPrimary(thread: Option<Id>, newConnection: Option<Id>)
      modifies this`retries, this`armed, this`root, this`connection, this`ready
      ensures retries == 0 && armed == (old(armed) || (thread.Some? && thread != registered))
      ensures root == thread && connection == newConnection
      ensures ready == (newConnection.Some? && thread.Some? && thread == registered)
    {
      StartBinding(thread);
      Rebind(thread, newConnection);
    }

    /** A fresh retry budget, and a fresh crossing for a main thread other than the registered one. */
    method StartBinding(thread: Option<Id>)
      modifies this`retries, this`armed
      ensures retries == 0 && armed == (old(armed) || (thread.Some? && thread != registered))
    {
      retries := 0;
      if thread.Some? && thread != registered {
        armed := true;
      }
    }

    method Rebind(thread: Option<Id>, newConnection: Option<Id>)
      modifies this`root, this`connection, this`ready
      ensures root == thread && connection == newConnection
      ensures ready == (newConnection.Some? && thread.Some? && thread == registered)
    {
      root, connection := thread, newConnection;
      ready := newConnection.Some? && thread.Some? && thread == registered;
    }

    /** Reserve the crossing; the returned generation names the timer to start. */
    method ScheduleIfReady() returns (started: Option<nat>)
      modifies this`generation, this`pending, this`timer
      ensures Model() == Scheduled(old(Model()), limit)
      ensures started == if Schedulable(old(Model()), limit) then Some(generation) else None
    {
      if closed || !ready || root.None? || turn.None? || percent.None? || percent.value < limit
         || !armed || compacting != {} || pending.Some? {
        return None;
      }
      generation := generation + 1;
      pending := Some(Attempt(root.value, turn.value, percent.value, generation));
      timer := Some(generation);
      return Some(generation);
    }

    method BindRootThread(thread: Id) returns (started: Option<nat>)
      requires Valid()
      modifies this
      ensures Valid() && Model() == Step(old(Model()), BindRoot(thread), limit)
    {
      hide Consistent;
      StepConsistent(Model(), BindRoot(thread), limit);
      if closed {
        return None;
      }
      registered := Some(thread);
      ready := root == Some(thread) && connection.Some?;
      if !ready {
        ClearPending();
      }
      started := ScheduleIfReady();
    }

    method BindPrimaryThread(thread: Option<Id>, newConnection: Option<Id>)
      requires Valid()
      modifies this
      ensures Valid() && Model() == Step(old(Model()), BindPrimary(thread, newConnection), limit)
    {
      hide Consistent, AfterBindPrimary;
      BindPrimaryFollows(Model(), thread, newConnection, limit);
      SwitchPrimary(thread, newConnection);
    }

    method SwitchPrimary(thread: Option<Id>, newConnection: Option<Id>)
      modifies this`generation, this`pending, this`timer, this`turn, this`percent, this`compacting, this`retries,
        this`armed, this`root, this`connection, this`ready
      ensures Model() == AfterBindPrimary(old(Model()), thread, newConnection)
    {
      if closed || (thread == root && newConnection == connection) {
        return;
      }
      AbandonTurn();
      AdoptPrimary(thread, newConnection);
    }

    method ObserveProtocolEvent(e: Event) returns (started: Option<nat>)
      requires Valid()
      requires e.TurnStarted? || e.TurnCompleted? || e.StatusChanged? || e.CompactionStarted? || e.CompactionCompleted?
      modifies this
      ensures Valid() && Model() == Step(old(Model()), e, limit)
    {
      hide Consistent, AfterTurnStarted;
      StepConsistent(Model(), e, limit);
      started := None;
      if closed || e.connection.None? || e.connection != connection || root != Some(e.thread) {
        return;
      }
      if e.TurnStarted? {
        started := StartTurn(e.started);
      } else if e.TurnCompleted? {
        if turn.None? || e.completed == turn {
          turn, compacting := None, {};
          ClearPending();
        }
      } else if e.StatusChanged? {
        if e.inactive {
          turn, compacting := None, {};
          ClearPending();
        }
      } else if e.CompactionStarted? {
        compacting := compacting + {e.item};
        percent, armed := None, false;
        ClearPending();
      } else {
        compacting := compacting - {e.item};
      }
    }

    method StartTurn(newTurn: Option<Id>) returns (started: Option<nat>)
      modifies this`turn, this`generation, this`pending, this`timer
      ensures Model() == AfterTurnStarted(old(Model()), newTurn, limit)
    {
      hide Scheduled, Schedulable;
      if newTurn.None? {
        return None;
      }
      if turn.Some? && turn != newTurn {
        ClearPending();
      }
      turn := newTurn;
      started := ScheduleIfReady();
    }

    method ObserveContextPercent(thread: Id, value: real, from: Option<Id>) returns (started: Option<nat>)
      requires Valid()
      modifies this
      ensures Valid() && Model() == Step(old(Model()), Percent(thread, from, value), limit)
    {
      hide Consistent, Scheduled, Schedulable;
      StepConsistent(Model(), Percent(thread, from, value), limit);
      started := None;
      if closed || from.None? || from != connection || root != Some(thread) {
        return;
      }
      if compacting != {} {
        return;
      }
      percent := Some(value);
      if value < limit {
        armed, retries := true, 0;
        ClearPending();
      } else {
        started := ScheduleIfReady();
      }
    }

    /** First section of a fired timer: take the attempt unless the callback is stale. */
    method TakePending(fired: nat) returns (attempt: Option<Attempt>)
      requires Valid()
      modifies this`timer
      ensures Valid() && Model() == Step(old(Model()), TimerFired(fired), limit)
      ensures attempt.Some? ==> attempt == pending && fired == generation
    {
      if closed || fired != generation || pending.None? || timer.None? {
        return None;
      }
      attempt := pending;
      timer := None;
    }

    method RegisterRequest(attempt: Attempt, request: nat) returns (registered: bool)
      requires Valid()
      modifies this`requests
      ensures Valid() && Model() == Step(old(Model()), Register(attempt, request), limit)
    {
      if closed || attempt.generation != generation || pending != Some(attempt) {
        return false;
      }
      requests := requests[request := attempt];
      return true;
    }

    /** `ok` is false where the source rejects the request. */
    method AdmitDispatch(r: Request) returns (ok: bool)
      requires Valid()
      modifies this
      ensures Valid() && Model() == Step(old(Model()), Admit(r), limit)
      ensures ok == (!r.ours || Admissible(old(Model()), r, limit))
    {
      hide Consistent, AfterAdmit, Admissible;
      AdmitFollows(Model(), r, limit);
      ok := Recheck(r);
    }

    /** The final recheck: the registration is used up, and an admissible request disarms the crossing. */
    method Recheck(r: Request) returns (ok: bool)
      modifies this`requests, this`admitted, this`armed, this`generation, this`pending, this`timer
      ensures Model() == AfterAdmit(old(Model()), r, limit)
      ensures ok == (!r.ours || Admissible(old(Model()), r, limit))
    {
      if !r.ours {
        return true;
      }
      if r.id !in requests {
        assert requests - {r.id} == requests;
        return false;
      }
      var attempt := requests[r.id];
      requests := requests - {r.id};
      if closed || attempt.generation != generation || pending != Some(attempt) || !ready
         || root != Some(attempt.thread) || turn != Some(attempt.turn) || compacting != {}
         || percent.None? || percent.value < limit || !r.steer || r.thread != attempt.thread
         || r.turn != attempt.turn || r.generation != attempt.generation || !r.textMatches {
        return false;
      }
      ConsumeCrossing(r.id);
      return true;
    }

    method ConsumeCrossing(request: nat)
      modifies this`admitted, this`armed, this`generation, this`pending, this`timer
      ensures admitted == old(admitted) + {request} && !armed
      ensures generation == old(generation) + 1 && pending == None && timer == None
    {
      admitted := admitted + {request};
      armed := false;
      ClearPending();
    }

    method FinishDispatch(attempt: Attempt, request: nat, outcome: Outcome) returns (retry: Option<nat>)
      requires Valid()
      modifies this
      ensures Valid() && Model() == Step(old(Model()), Finish(attempt, request, outcome), limit)
    {
      hide Consistent, AfterFinish;
      FinishFollows(Model(), attempt, request, outcome, limit);
      retry := ConcludeDispatch(attempt, request, outcome);
    }

    method ConcludeDispatch(attempt: Attempt, request: nat, outcome: Outcome) returns (retry: Option<nat>)
      modifies this`requests, this`admitted, this`lastCompleted, this`generation, this`pending, this`timer,
        this`retries, this`armed
      ensures Model() == AfterFinish(old(Model()), attempt, request, outcome, limit)
    {
      hide Scheduled, Schedulable;
      retry := None;
      var wasAdmitted := PopRequest(request);
      if wasAdmitted && outcome.Completed? {
        lastCompleted := Some(attempt);
      }
      if attempt.generation == generation && pending == Some(attempt) {
        retry := SettleAttempt(!wasAdmitted && outcome.RejectedUnbound?);
      }
    }

    /** The live attempt ended: retry a refused binding within its budget, or give the crossing up. */
    method SettleAttempt(unbound: bool) returns (retry: Option<nat>)
      modifies this`generation, this`pending, this`timer, this`retries, this`armed
      ensures Model() ==
        if unbound && old(retries) < BINDING_RETRIES
        then Scheduled(Cleared(old(Model())).(retries := old(retries) + 1), limit)
        else Cleared(old(Model())).(armed := false)
    {
      hide Scheduled, Schedulable;
      retry := None;
      ClearPending();
      if unbound && retries < BINDING_RETRIES {
        retries := retries + 1;
        retry := ScheduleIfReady();
      } else {
        armed := false;
      }
    }

    method PopRequest(request: nat) returns (wasAdmitted: bool)
      modifies this`requests, this`admitted
      ensures requests == old(requests) - {request} && admitted == old(admitted) - {request}
      ensures wasAdmitted == (request in old(admitted))
    {
      wasAdmitted := request in admitted;
      requests, admitted := requests - {request}, admitted - {request};
    }

    method TimerStartFailed(started: nat)
      requires Valid()
      modifies this
      ensures Valid() && Model() == Step(old(Model()), StartFailed(started), limit)
    {
      if timer == Some(started) {
        ClearPending();
        armed := true;
      }
    }

    method ResetAfterDisconnect()
      requires Valid()
      modifies this
      ensures Valid() && Model() == Step(old(Model()), Disconnect, limit)
    {
      hide Consistent;
      StepConsistent(Model(), Disconnect, limit);
      if closed {
        return;
      }
      AbandonTurn();
      Rebind(None, None);
    }

    method Close()
      requires Valid()
      modifies this
      ensures Valid() && Model() == Step(old(Model()), Event.Close, limit)
    {
      hide Consistent;
      StepConsistent(Model(), Event.Close, limit);
      if closed {
        return;
      }
      closed := true;
      AbandonTurn();
    }
  }
}
