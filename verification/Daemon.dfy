/**
 The daemon's runtime manager: every lock section as one atomic step, in any interleaving.

 Contexts are never forgotten by the model: a caller may still hold one after its runtime id was
 released. An operation id is its numeric value, which its fixed-width spelling determines.
 */
module Daemon {
  import opened Wrappers
  import opened OrderedDict
  import opened Finite

  const COMPLETION_LIMIT := 1024

  type RuntimeId = string

  type Descriptor = nat

  /** Finalization: not begun, under way, recorded as terminal, signalled as done. */
  datatype Phase = Idle | Begun | Recorded | Done

  datatype Context = Context(
    runtime: RuntimeId, operation: nat, config: int, stop: bool, phase: Phase, bridge: bool,
    descriptor: Option<Descriptor>, thread: bool, serviceFinished: bool, error: Option<string>)

  datatype Completion = Completion(operation: nat, fingerprint: int, error: Option<string>)

  datatype Refusal =
    | ShuttingDown | StoppingOrTerminal | ReservedByAnother | AlreadyTerminal(reason: Option<string>) | Expired
    | AnalyticsRefused | BridgeConsumed | NoBridge | AlreadyStarted | StartFailed

  // ---------------------------------------------------------------- sections on one context

  function NewContext(runtime: RuntimeId, operation: nat, config: int): Context {
    Context(runtime, operation, config, false, Idle, false, None, false, false, None)
  }

  predicate Admissible(c: Context, closing: bool) {
    !closing && !c.stop && c.phase.Idle?
  }

  function BindOutcome(c: Context, closing: bool): Option<Refusal> {
    if !Admissible(c, closing) then Some(StoppingOrTerminal)
    else if c.bridge || c.thread then Some(BridgeConsumed)
    else None
  }

  function Bound(c: Context, d: Descriptor): Context {
    c.(bridge := true, descriptor := Some(d))
  }

  function StartOutcome(c: Context, closing: bool, launched: bool): Option<Refusal> {
    if !Admissible(c, closing) then Some(StoppingOrTerminal)
    else if c.descriptor.None? || !c.bridge then Some(NoBridge)
    else if c.thread then Some(AlreadyStarted)
    else if !launched then Some(StartFailed)
    else None
  }

  function Launched(c: Context): Context {
    c.(thread := true, descriptor := None)
  }

  function Stopped(c: Context): Context {
    c.(stop := true, descriptor := None,
       error := if c.thread || c.error.Some? then c.error
                else Some("runtime reservation was cancelled before service start"))
  }

  /** The stop section goes on to finalize when no service can still be running. */
  predicate StopFinishes(c: Context) {
    !c.thread || c.serviceFinished
  }

  function ServiceEnded(c: Context, failure: Option<string>): Context {
    c.(serviceFinished := true, error := if failure.Some? then failure else c.error)
  }

  function FinishBegun(c: Context): Context {
    if c.phase.Idle? then c.(phase := Begun, bridge := false) else c
  }

  function FinishFailed(c: Context, reason: string): Context {
    c.(phase := Idle, stop := true, error := Some(reason))
  }

  // ---------------------------------------------------------------- the manager

  /** `owed` counts the callers between a section and the finalization it leads to. */
  datatype Manager = Manager(
    contexts: seq<Context>, runtimes: map<RuntimeId, nat>, completed: Dict<RuntimeId, Completion>, floor: nat,
    closing: bool, owed: multiset<nat>, handed: multiset<Descriptor>, closed: multiset<Descriptor>, admitted: nat,
    terminal: set<(RuntimeId, nat)>)

  const INITIAL := Manager([], map[], Empty(), 0, false, multiset{}, multiset{}, multiset{}, 0, {})

  /** Whether a reservation is refused; without a refusal `fresh` says that it admits a new context. */
  datatype Reservation = Refused(why: Refusal) | Repeated | Admitted

  function ReserveOutcome(
    existing: Option<Context>, completed: Option<Completion>, floor: nat, closing: bool,
    operation: nat, config: int, analytics: bool
  ): Reservation
  {
    if closing then Refused(ShuttingDown)
    else if existing.Some? then
      if existing.value.operation == operation && existing.value.config == config then
        (if Admissible(existing.value, closing) then Repeated else Refused(StoppingOrTerminal))
      else Refused(ReservedByAnother)
    else if completed.Some? then
      if completed.value.operation != operation || completed.value.fingerprint != config then Refused(ReservedByAnother)
      else Refused(AlreadyTerminal(completed.value.error))
    else if operation <= floor then Refused(Expired)
    else if !analytics then Refused(AnalyticsRefused)
    else Admitted
  }

  function Existing(m: Manager, r: RuntimeId): Option<Context> {
    if r in m.runtimes && m.runtimes[r] < |m.contexts| then Some(m.contexts[m.runtimes[r]]) else None
  }

  function Completed(m: Manager, r: RuntimeId): Option<Completion> {
    if r in m.completed.at then Some(m.completed.at[r]) else None
  }

  function Reserving(m: Manager, r: RuntimeId, operation: nat, config: int, analytics: bool): Reservation {
    ReserveOutcome(Existing(m, r), Completed(m, r), m.floor, m.closing, operation, config, analytics)
  }

  /** Completion records past the limit are expired oldest first, each raising the operation floor. */
  function Expire(completed: Dict<RuntimeId, Completion>, floor: nat): (Dict<RuntimeId, Completion>, nat)
    decreases |completed.keys|
  {
    if |completed.keys| <= COMPLETION_LIMIT then (completed, floor)
    else
      var r := completed.keys[0];
      var operation := if r in completed.at then completed.at[r].operation else 0;
      Expire(Pop(completed, r), if operation > floor then operation else floor)
  }

  function With(m: Manager, i: nat, c: Context): Manager
    requires i < |m.contexts|
  {
    m.(contexts := m.contexts[i := c])
  }

  /** The recording section of finalization; only the context that owns its runtime id is recorded. */
  function Committed(m: Manager, i: nat): Manager
    requires i < |m.contexts|
  {
    var c := m.contexts[i];
    var n := With(m, i, c.(phase := Recorded));
    if c.runtime !in m.runtimes || m.runtimes[c.runtime] != i then n
    else
      var (completed, floor) := Expire(Put(m.completed, c.runtime, Completion(c.operation, c.config, c.error)),
                                       m.floor);
      n.(completed := completed, floor := floor, runtimes := m.runtimes - {c.runtime},
         terminal := m.terminal + {(c.runtime, c.operation)})
  }

  datatype Step =
    | Reserve(runtime: RuntimeId, operation: nat, config: int, analytics: bool)
    | Bind(context: nat)
    | Start(context: nat, launched: bool)
    | Stop(context: nat)
    | ServiceEnd(context: nat, failure: Option<string>)
    | FinishBegin(context: nat)
    | FinishFail(context: nat, reason: string)
    | FinishCommit(context: nat)
    | FinishDone(context: nat)
    | Close

  /** A section runs only where its caller can be: finalization after it is owed, in its own order. */
  predicate Enabled(m: Manager, s: Step) {
    match s
    case Reserve(_, _, _, _) => true
    case Bind(i) => i < |m.contexts|
    case Start(i, _) => i < |m.contexts|
    case Stop(i) => i < |m.contexts|
    case ServiceEnd(i, _) => i < |m.contexts| && m.contexts[i].thread && !m.contexts[i].serviceFinished
    case FinishBegin(i) => i < |m.contexts| && m.owed[i] > 0
    case FinishFail(i, _) => i < |m.contexts| && m.contexts[i].phase.Begun?
    case FinishCommit(i) => i < |m.contexts| && m.contexts[i].phase.Begun?
    case FinishDone(i) => i < |m.contexts| && m.contexts[i].phase.Recorded?
    case Close => true
  }

  function Apply(m: Manager, s: Step): Manager
    requires Enabled(m, s)
  {
    match s
    case Reserve(r, operation, config, analytics) =>
      if !Reserving(m, r, operation, config, analytics).Admitted? then m
      else m.(contexts := m.contexts + [NewContext(r, operation, config)], runtimes := m.runtimes[r := |m.contexts|])
    case Bind(i) =>
      // each admitted terminal is a descriptor of its own
      if BindOutcome(m.contexts[i], m.closing).Some? then m
      else With(m, i, Bound(m.contexts[i], m.admitted)).(admitted := m.admitted + 1)
    case Start(i, launched) =>
      if StartOutcome(m.contexts[i], m.closing, launched).Some? then m
      else With(m, i, Launched(m.contexts[i])).(handed := m.handed + Held(m.contexts[i]))
    case Stop(i) =>
      var c := m.contexts[i];
      With(m, i, Stopped(c)).(closed := m.closed + Held(c),
                              owed := if StopFinishes(c) then m.owed + multiset{i} else m.owed)
    case ServiceEnd(i, failure) =>
      With(m, i, ServiceEnded(m.contexts[i], failure)).(owed := m.owed + multiset{i})
    case FinishBegin(i) => With(m, i, FinishBegun(m.contexts[i])).(owed := m.owed - multiset{i})
    case FinishFail(i, reason) => With(m, i, FinishFailed(m.contexts[i], reason))
    case FinishCommit(i) => Committed(m, i)
    case FinishDone(i) => With(m, i, m.contexts[i].(phase := Done))
    case Close => m.(closing := true)
  }

  function Held(c: Context): multiset<Descriptor> {
    if c.descriptor.Some? then multiset{c.descriptor.value} else multiset{}
  }

  predicate Runnable(m: Manager, steps: seq<Step>)
    decreases |steps|
  {
    steps == [] || (Enabled(m, steps[0]) && Runnable(Apply(m, steps[0]), steps[1..]))
  }

  function Run(m: Manager, steps: seq<Step>): Manager
    requires Runnable(m, steps)
    decreases |steps|
  {
    if steps == [] then m else Run(Apply(m, steps[0]), steps[1..])
  }

  // ---------------------------------------------------------------- what every section keeps

  /** The service ended, or it has not started and never can. */
  predicate CannotRun(c: Context) {
    c.serviceFinished || (!c.thread && c.stop)
  }

  predicate ContextOk(c: Context) {
    && (c.thread || c.stop ==> c.descriptor.None?)
    && (c.serviceFinished ==> c.thread)
    && (!c.phase.Idle? ==> CannotRun(c))
    && (c.descriptor.Some? ==> c.bridge)
  }

  predicate Owner(m: Manager, r: RuntimeId) {
    r in m.runtimes ==>
      && m.runtimes[r] < |m.contexts| && m.contexts[m.runtimes[r]].runtime == r
      && (r, m.contexts[m.runtimes[r]].operation) !in m.terminal
      && r !in m.completed.at
  }

  predicate Remembered(m: Manager, r: RuntimeId, operation: nat) {
    operation <= m.floor || (r in m.completed.at && m.completed.at[r].operation == operation)
  }

  /** A descriptor is held by at most one context, or was handed over once, or was closed once. */
  function Uses(contexts: seq<Context>, d: Descriptor): nat {
    if contexts == [] then 0 else Held(contexts[0])[d] + Uses(contexts[1..], d)
  }

  predicate Accounted(m: Manager, d: Descriptor) {
    Uses(m.contexts, d) + m.handed[d] + m.closed[d] == if d < m.admitted then 1 else 0
  }

  predicate IndexOk(m: Manager, i: nat) {
    && (m.owed[i] > 0 ==> i < |m.contexts| && CannotRun(m.contexts[i]))
    && (i < |m.contexts| ==> ContextOk(m.contexts[i]))
  }

  ghost predicate ContextsOk(m: Manager) {
    forall i: nat :: IndexOk(m, i)
  }

  ghost predicate RecordsOk(m: Manager) {
    && (forall r :: Owner(m, r))
    && (forall r, operation :: (r, operation) in m.terminal ==> Remembered(m, r, operation))
    && Valid(m.completed) && |m.completed.keys| <= COMPLETION_LIMIT
  }

  ghost predicate Consistent(m: Manager) {
    ContextsOk(m) && RecordsOk(m) && forall d :: Accounted(m, d)
  }

  /** What a section does to the context it works on. */
  function Next(m: Manager, s: Step): Context
    requires Enabled(m, s) && !s.Reserve? && !s.Close?
  {
    var c := m.contexts[s.context];
    match s
    case Bind(_) => if BindOutcome(c, m.closing).Some? then c else Bound(c, m.admitted)
    case Start(_, launched) => if StartOutcome(c, m.closing, launched).Some? then c else Launched(c)
    case Stop(_) => Stopped(c)
    case ServiceEnd(_, failure) => ServiceEnded(c, failure)
    case FinishBegin(_) => FinishBegun(c)
    case FinishFail(_, reason) => FinishFailed(c, reason)
    case FinishCommit(_) => c.(phase := Recorded)
    case FinishDone(_) => c.(phase := Done)
  }

  lemma ApplyNext(m: Manager, s: Step)
    requires Enabled(m, s) && !s.Reserve? && !s.Close?
    ensures Apply(m, s).contexts == m.contexts[s.context := Next(m, s)]
  {
    hide Expire;
  }

  lemma NextOk(m: Manager, s: Step)
    requires Enabled(m, s) && !s.Reserve? && !s.Close? && IndexOk(m, s.context)
    ensures ContextOk(Next(m, s)) && (CannotRun(m.contexts[s.context]) ==> CannotRun(Next(m, s)))
    ensures s.ServiceEnd? || (s.Stop? && StopFinishes(m.contexts[s.context])) ==> CannotRun(Next(m, s))
  {}

  lemma OwedAfter(m: Manager, s: Step, i: nat)
    requires Enabled(m, s) && Apply(m, s).owed[i] > 0
    ensures m.owed[i] > 0
         || ((s.ServiceEnd? || (s.Stop? && StopFinishes(m.contexts[s.context]))) && s.context == i)
  {
    hide Expire;
  }

  lemma {:induction false} IndexStaysOk(m: Manager, s: Step, i: nat)
    requires Enabled(m, s) && IndexOk(m, i)
    ensures IndexOk(Apply(m, s), i)
  {
    hide Expire, Apply, CannotRun, ContextOk, Next, StopFinishes;
    if Apply(m, s).owed[i] > 0 {
      OwedAfter(m, s, i);
    }
    if s.Reserve? || s.Close? {
      NewContextOk(m, s);
    } else {
      ApplyNext(m, s);
      if s.context == i {
        NextOk(m, s);
      }
    }
  }

  lemma NewContextOk(m: Manager, s: Step)
    requires s.Reserve? || s.Close?
    ensures Apply(m, s).contexts == m.contexts
      || (s.Reserve? && Apply(m, s).contexts == m.contexts + [NewContext(s.runtime, s.operation, s.config)]
          && ContextOk(NewContext(s.runtime, s.operation, s.config)))
  {}

  lemma {:induction false} ContextsStayOk(m: Manager, s: Step)
    requires ContextsOk(m) && Enabled(m, s)
    ensures ContextsOk(Apply(m, s))
  {
    hide IndexOk, Enabled, Apply;
    forall i: nat ensures IndexOk(Apply(m, s), i) {
      IndexStaysOk(m, s, i);
    }
  }

  lemma {:induction false} ExpireKeeps(completed: Dict<RuntimeId, Completion>, floor: nat, r: RuntimeId)
    requires Valid(completed)
    ensures var (c, f) := Expire(completed, floor);
            && Valid(c) && |c.keys| <= COMPLETION_LIMIT && f >= floor && (r in c.at ==> r in completed.at)
            && (r in completed.at ==> completed.at[r].operation <= f || (r in c.at && c.at[r] == completed.at[r]))
    decreases |completed.keys|
  {
    if |completed.keys| > COMPLETION_LIMIT {
      var first := completed.keys[0];
      assert first in completed.keys;
      PopFirst(completed);
      DropValid(completed, {first});
      var operation := completed.at[first].operation;
      ExpireKeeps(Pop(completed, first), if operation > floor then operation else floor, r);
    }
  }

  /** Sections that leave the records alone and every context's identity. */
  predicate SameRecords(m: Manager, n: Manager) {
    && n.runtimes == m.runtimes && n.completed == m.completed && n.floor == m.floor && n.terminal == m.terminal
    && |n.contexts| == |m.contexts|
    && forall i :: 0 <= i < |m.contexts| ==>
         n.contexts[i].runtime == m.contexts[i].runtime && n.contexts[i].operation == m.contexts[i].operation
  }

  lemma SameRecordsOk(m: Manager, n: Manager)
    requires RecordsOk(m) && SameRecords(m, n)
    ensures RecordsOk(n)
  {
    forall r ensures Owner(n, r) {
      assert Owner(m, r);
    }
    forall r, operation | (r, operation) in n.terminal ensures Remembered(n, r, operation) {
      assert Remembered(m, r, operation);
    }
  }

  lemma ReserveRecordsOk(m: Manager, r: RuntimeId, operation: nat, config: int, analytics: bool)
    requires RecordsOk(m)
    ensures RecordsOk(Apply(m, Reserve(r, operation, config, analytics)))
  {
    var n := Apply(m, Reserve(r, operation, config, analytics));
    if Reserving(m, r, operation, config, analytics).Admitted? {
      assert Owner(m, r);
      forall q ensures Owner(n, q) {
        assert Owner(m, q);
        assert (r, operation) in m.terminal ==> Remembered(m, r, operation);
      }
      forall q, o | (q, o) in n.terminal ensures Remembered(n, q, o) {
        assert Remembered(m, q, o);
      }
    }
  }

  lemma CommitRecordsOk(m: Manager, i: nat)
    requires RecordsOk(m) && i < |m.contexts|
    ensures RecordsOk(Committed(m, i))
  {
    hide Expire;
    var n, c := Committed(m, i), m.contexts[i];
    if c.runtime in m.runtimes && m.runtimes[c.runtime] == i {
      assert Owner(m, c.runtime);
      var more := Put(m.completed, c.runtime, Completion(c.operation, c.config, c.error));
      PutValid(m.completed, c.runtime, Completion(c.operation, c.config, c.error));
      ExpireKeeps(more, m.floor, c.runtime);
      forall r ensures Owner(n, r) {
        CommitOwner(m, i, r);
      }
      forall r, o | (r, o) in n.terminal ensures Remembered(n, r, o) {
        assert (r, o) in m.terminal ==> Remembered(m, r, o);
        ExpireKeeps(more, m.floor, r);
      }
    } else {
      SameRecordsOk(m, n);
    }
  }

  /** A released runtime id leaves every other id's owner as it was. */
  lemma CommitOwner(m: Manager, i: nat, r: RuntimeId)
    requires RecordsOk(m) && i < |m.contexts|
    requires m.contexts[i].runtime in m.runtimes && m.runtimes[m.contexts[i].runtime] == i
    ensures Owner(Committed(m, i), r)
  {
    hide Expire;
    var c := m.contexts[i];
    assert Owner(m, r) && Owner(m, c.runtime);
    PutValid(m.completed, c.runtime, Completion(c.operation, c.config, c.error));
    ExpireKeeps(Put(m.completed, c.runtime, Completion(c.operation, c.config, c.error)), m.floor, r);
  }

  lemma {:induction false} RecordsStayOk(m: Manager, s: Step)
    requires RecordsOk(m) && Enabled(m, s)
    ensures RecordsOk(Apply(m, s))
  {
    hide RecordsOk, Expire, Committed, Reserving, Apply, Next;
    if s.Reserve? {
      ReserveRecordsOk(m, s.runtime, s.operation, s.config, s.analytics);
    } else if s.FinishCommit? {
      CommitRecordsOk(m, s.context);
      CommitApplies(m, s.context);
    } else {
      OthersKeepRecords(m, s);
      if !s.Close? {
        ApplyNext(m, s);
        NextIdentity(m, s);
      }
      SameRecordsOk(m, Apply(m, s));
    }
  }

  lemma CommitApplies(m: Manager, i: nat)
    requires Enabled(m, FinishCommit(i))
    ensures Apply(m, FinishCommit(i)) == Committed(m, i)
  {}

  lemma NextIdentity(m: Manager, s: Step)
    requires Enabled(m, s) && !s.Reserve? && !s.Close?
    ensures Next(m, s).runtime == m.contexts[s.context].runtime
    ensures Next(m, s).operation == m.contexts[s.context].operation
  {}

  lemma OthersKeepRecords(m: Manager, s: Step)
    requires Enabled(m, s) && !s.Reserve? && !s.FinishCommit?
    ensures var n := Apply(m, s);
            && n == m.(contexts := n.contexts, owed := n.owed, handed := n.handed, closed := n.closed,
                       admitted := n.admitted, closing := n.closing)
            && (s.Close? ==> n.contexts == m.contexts)
  {
    hide Committed, Reserving, BindOutcome, StartOutcome, Held, Bound, Launched, Stopped, StopFinishes;
  }

  lemma {:induction false} UsesUpdate(contexts: seq<Context>, i: nat, c: Context, d: Descriptor)
    requires i < |contexts|
    ensures Uses(contexts[i := c], d) == Uses(contexts, d) - Held(contexts[i])[d] + Held(c)[d]
    ensures Uses(contexts, d) >= Held(contexts[i])[d]
  {
    if i == 0 {
      assert contexts[i := c][1..] == contexts[1..];
    } else {
      assert contexts[i := c][1..] == contexts[1..][i - 1 := c];
      UsesUpdate(contexts[1..], i - 1, c, d);
    }
  }

  lemma {:induction false} UsesAppend(contexts: seq<Context>, c: Context, d: Descriptor)
    ensures Uses(contexts + [c], d) == Uses(contexts, d) + Held(c)[d]
  {
    if contexts == [] {
      assert contexts + [c] == [c];
    } else {
      assert (contexts + [c])[1..] == contexts[1..] + [c];
      UsesAppend(contexts[1..], c, d);
    }
  }

  /** Every descriptor stays held once, handed over once or closed once -- never two of these. */
  lemma {:induction false} StaysAccounted(m: Manager, s: Step, d: Descriptor)
    requires ContextsOk(m) && Enabled(m, s) && Accounted(m, d)
    ensures Accounted(Apply(m, s), d)
  {
    hide Apply, Uses, Next, IndexOk;
    if s.Reserve? || s.Close? {
      StillHeld(m, s);
      NewContextOk(m, s);
      if s.Reserve? {
        UsesAppend(m.contexts, NewContext(s.runtime, s.operation, s.config), d);
      }
    } else {
      ApplyNext(m, s);
      UsesUpdate(m.contexts, s.context, Next(m, s), d);
      assert IndexOk(m, s.context);
      if s.Bind? {
        BindMoves(m, s.context, d);
      } else if s.Start? {
        LaunchMoves(m, s.context, s.launched, d);
      } else if s.Stop? {
        StopMoves(m, s.context, d);
      } else {
        StillHeld(m, s);
      }
    }
  }

  /** Sections other than a bind, a launch or a stop move no descriptor. */
  lemma StillHeld(m: Manager, s: Step)
    requires Enabled(m, s) && !s.Bind? && !s.Start? && !s.Stop?
    ensures var n := Apply(m, s);
            && n == m.(contexts := n.contexts, runtimes := n.runtimes, completed := n.completed, floor := n.floor,
                       closing := n.closing, owed := n.owed, terminal := n.terminal)
            && (!s.Reserve? && !s.Close? ==> Next(m, s).descriptor == m.contexts[s.context].descriptor)
  {
    hide Reserving, Expire;
  }

  lemma BindMoves(m: Manager, i: nat, d: Descriptor)
    requires i < |m.contexts| && IndexOk(m, i)
    ensures var n, c := Apply(m, Bind(i)), m.contexts[i];
            && n == m.(contexts := n.contexts, admitted := n.admitted)
            && n.admitted - m.admitted == (if BindOutcome(c, m.closing).None? then 1 else 0)
            && Held(Next(m, Bind(i)))[d]
               == Held(c)[d] + (if d == m.admitted && n.admitted > m.admitted then 1 else 0)
  {}

  lemma LaunchMoves(m: Manager, i: nat, launched: bool, d: Descriptor)
    requires i < |m.contexts|
    ensures var n := Apply(m, Start(i, launched));
            && n == m.(contexts := n.contexts, handed := n.handed)
            && Held(Next(m, Start(i, launched)))[d] + n.handed[d] == Held(m.contexts[i])[d] + m.handed[d]
  {}

  lemma StopMoves(m: Manager, i: nat, d: Descriptor)
    requires i < |m.contexts|
    ensures var n := Apply(m, Stop(i));
            && n == m.(contexts := n.contexts, closed := n.closed, owed := n.owed)
            && Held(Next(m, Stop(i)))[d] + n.closed[d] == Held(m.contexts[i])[d] + m.closed[d]
  {}

  /** Every section keeps the manager consistent. */
  lemma {:induction false} StepConsistent(m: Manager, s: Step)
    requires Consistent(m) && Enabled(m, s)
    ensures Consistent(Apply(m, s))
  {
    hide ContextsOk, RecordsOk, Accounted, Apply, Enabled, IndexOk;
    ContextsStayOk(m, s);
    RecordsStayOk(m, s);
    forall d ensures Accounted(Apply(m, s), d) {
      StaysAccounted(m, s, d);
    }
  }

  lemma {:induction false} RunConsistent(m: Manager, steps: seq<Step>)
    requires Consistent(m) && Runnable(m, steps)
    ensures Consistent(Run(m, steps))
    decreases |steps|
  {
    hide Consistent, Apply, Enabled;
    if steps != [] {
      StepConsistent(m, steps[0]);
      RunConsistent(Apply(m, steps[0]), steps[1..]);
    }
  }

  lemma InitialConsistent()
    ensures Consistent(INITIAL)
  {}

  // ---------------------------------------------------------------- terminal for good

  lemma {:induction false} TerminalGrows(m: Manager, steps: seq<Step>)
    requires Runnable(m, steps)
    ensures m.terminal <= Run(m, steps).terminal
    decreases |steps|
  {
    if steps != [] {
      TerminalGrowsOnce(m, steps[0]);
      TerminalGrows(Apply(m, steps[0]), steps[1..]);
    }
  }

  lemma TerminalGrowsOnce(m: Manager, s: Step)
    requires Enabled(m, s)
    ensures m.terminal <= Apply(m, s).terminal
  {
    hide Expire;
  }

  /**
   Once an operation was recorded terminal for a runtime id, no later reservation of that pair is
   ever admitted or repeated, whatever completion records were expired in between.
   */
  lemma {:induction false} TerminalNeverReadmitted(
    m: Manager, steps: seq<Step>, r: RuntimeId, operation: nat, config: int, analytics: bool
  )
    requires Consistent(m) && Runnable(m, steps) && (r, operation) in m.terminal
    ensures Reserving(Run(m, steps), r, operation, config, analytics).Refused?
  {
    hide Run, Runnable, Accounted;
    var n := Run(m, steps);
    TerminalGrows(m, steps);
    RunConsistent(m, steps);
    assert Owner(n, r);
    assert Remembered(n, r, operation);
  }

  /** Exactly when a reservation admits a new context. */
  lemma {:induction false} AdmittedIff(m: Manager, r: RuntimeId, operation: nat, config: int, analytics: bool)
    requires Consistent(m)
    ensures Reserving(m, r, operation, config, analytics).Admitted?
       <==> !m.closing && r !in m.runtimes && r !in m.completed.at && operation > m.floor && analytics
  {
    assert Owner(m, r);
  }

  /** A terminal operation id is refused under every runtime id once it is at or below the floor. */
  lemma {:induction false} OperationNeverReadmittedIff(m: Manager, operation: nat)
    requires Consistent(m) && !m.closing
    ensures (forall r, config: int, analytics :: !Reserving(m, r, operation, config, analytics).Admitted?)
      <==> operation <= m.floor
  {
    if operation > m.floor {
      var r := Unused(m.runtimes.Keys + m.completed.at.Keys);
      AdmittedIff(m, r, operation, 0, true);
    } else {
      forall r, config: int, analytics ensures !Reserving(m, r, operation, config, analytics).Admitted? {
        AdmittedIff(m, r, operation, config, analytics);
      }
    }
  }

  /** One operation id, recorded terminal for runtime "a", is admitted again for runtime "b". */
  lemma TerminalOperationReusable()
    ensures var steps := [Reserve("a", 1, 0, true), Stop(0), FinishBegin(0), FinishCommit(0)];
            && Runnable(INITIAL, steps)
            && ("a", 1) in Run(INITIAL, steps).terminal
            && Reserving(Run(INITIAL, steps), "b", 1, 0, true).Admitted?
  {
    hide Apply, Enabled, Reserving;
    Cancelled();
    var m1 := Apply(INITIAL, Reserve("a", 1, 0, true));
    var m2 := Apply(m1, Stop(0));
    var m3 := Apply(m2, FinishBegin(0));
    var last := [FinishCommit(0)];
    RunsOn(m3, FinishCommit(0), []);
    RunsOn(m2, FinishBegin(0), last);
    RunsOn(m1, Stop(0), [FinishBegin(0)] + last);
    RunsOn(INITIAL, Reserve("a", 1, 0, true), [Stop(0)] + ([FinishBegin(0)] + last));
    assert [FinishCommit(0)] + [] == last;
    assert [Reserve("a", 1, 0, true)] + ([Stop(0)] + ([FinishBegin(0)] + last))
        == [Reserve("a", 1, 0, true), Stop(0), FinishBegin(0), FinishCommit(0)];
  }

  lemma RunsOn(m: Manager, s: Step, rest: seq<Step>)
    requires Enabled(m, s) && Runnable(Apply(m, s), rest)
    ensures Runnable(m, [s] + rest) && Run(m, [s] + rest) == Run(Apply(m, s), rest)
  {
    assert ([s] + rest)[1..] == rest;
  }

  /** A reservation cancelled before its service started. */
  lemma Cancelled()
    ensures Enabled(INITIAL, Reserve("a", 1, 0, true))
    ensures var m1 := Apply(INITIAL, Reserve("a", 1, 0, true));
            && Enabled(m1, Stop(0))
            && var m2 := Apply(m1, Stop(0));
               && Enabled(m2, FinishBegin(0))
               && var m3 := Apply(m2, FinishBegin(0));
                  && Enabled(m3, FinishCommit(0))
                  && ("a", 1) in Apply(m3, FinishCommit(0)).terminal
                  && Reserving(Apply(m3, FinishCommit(0)), "b", 1, 0, true).Admitted?
  {
    hide Committed;
    var m1 := Apply(INITIAL, Reserve("a", 1, 0, true));
    assert m1.contexts == [NewContext("a", 1, 0)] && m1.runtimes == map["a" := 0];
    CancelsFirst(m1);
  }

  lemma CancelsFirst(m: Manager)
    requires m.contexts == [NewContext("a", 1, 0)] && m.runtimes == map["a" := 0]
    requires m.completed == Empty() && m.floor == 0 && !m.closing
    ensures Enabled(m, Stop(0))
    ensures var m2 := Apply(m, Stop(0));
            && Enabled(m2, FinishBegin(0))
            && var m3 := Apply(m2, FinishBegin(0));
               && Enabled(m3, FinishCommit(0))
               && ("a", 1) in Apply(m3, FinishCommit(0)).terminal
               && Reserving(Apply(m3, FinishCommit(0)), "b", 1, 0, true).Admitted?
  {
    hide Committed;
    var m2 := Apply(m, Stop(0));
    assert m2.owed[0] >= 1 && m2.contexts[0].phase.Idle?;
    CommitsFirst(Apply(m2, FinishBegin(0)));
  }

  lemma CommitsFirst(m: Manager)
    requires |m.contexts| == 1 && m.contexts[0].runtime == "a" && m.contexts[0].operation == 1
    requires m.contexts[0].phase.Begun? && m.runtimes == map["a" := 0]
    requires m.completed == Empty() && m.floor == 0 && !m.closing
    ensures ("a", 1) in Apply(m, FinishCommit(0)).terminal
    ensures Reserving(Apply(m, FinishCommit(0)), "b", 1, 0, true).Admitted?
  {
    var c := m.contexts[0];
    assert Put(m.completed, "a", Completion(1, c.config, c.error)).keys == ["a"];
  }

  // ---------------------------------------------------------------- services and descriptors

  /** A service that ended or was cancelled before its start never runs again, in any continuation. */
  lemma {:induction false} CannotRunForever(m: Manager, steps: seq<Step>, i: nat)
    requires Consistent(m) && Runnable(m, steps) && i < |m.contexts| && CannotRun(m.contexts[i])
    ensures i < |Run(m, steps).contexts| && CannotRun(Run(m, steps).contexts[i])
    ensures Run(m, steps).contexts[i].thread == m.contexts[i].thread
    decreases |steps|
  {
    hide Consistent;
    if steps != [] {
      CannotRunOnce(m, steps[0], i);
      StepConsistent(m, steps[0]);
      CannotRunForever(Apply(m, steps[0]), steps[1..], i);
    }
  }

  lemma CannotRunOnce(m: Manager, s: Step, i: nat)
    requires Consistent(m) && Enabled(m, s) && i < |m.contexts| && CannotRun(m.contexts[i])
    ensures i < |Apply(m, s).contexts| && CannotRun(Apply(m, s).contexts[i])
    ensures Apply(m, s).contexts[i].thread == m.contexts[i].thread
  {
    hide RecordsOk, Accounted, Apply, Next, CannotRun, ContextOk;
    assert IndexOk(m, i);
    if s.Reserve? || s.Close? {
      NewContextOk(m, s);
    } else {
      ApplyNext(m, s);
      if s.context == i {
        NextOk(m, s);
        NextThread(m, s);
      }
    }
  }

  lemma NextThread(m: Manager, s: Step)
    requires Enabled(m, s) && !s.Reserve? && !s.Close? && IndexOk(m, s.context) && CannotRun(m.contexts[s.context])
    ensures Next(m, s).thread == m.contexts[s.context].thread
  {}

  /** A recorded or done runtime's service ended or can never start, and it holds no descriptor. */
  lemma {:induction false} TerminalServiceIsOver(m: Manager, steps: seq<Step>, i: nat)
    requires Consistent(m) && Runnable(m, steps) && i < |Run(m, steps).contexts|
    ensures var c := Run(m, steps).contexts[i];
            c.phase.Recorded? || c.phase.Done? ==> CannotRun(c) && c.descriptor.None?
  {
    hide RecordsOk, Accounted, Runnable, Run;
    RunConsistent(m, steps);
    assert IndexOk(Run(m, steps), i);
  }

  /** In every reachable state a descriptor was handed over or closed at most once, and never both. */
  lemma {:induction false} DescriptorSingleOwner(steps: seq<Step>, d: Descriptor)
    requires Runnable(INITIAL, steps)
    ensures var m := Run(INITIAL, steps);
            && m.handed[d] + m.closed[d] <= 1
            && (m.handed[d] + m.closed[d] == 1 ==> Uses(m.contexts, d) == 0)
            && (d < m.admitted && m.handed[d] + m.closed[d] == 0 ==> Uses(m.contexts, d) == 1)
  {
    hide ContextsOk, RecordsOk, Run, Runnable;
    InitialConsistent();
    RunConsistent(INITIAL, steps);
    assert Accounted(Run(INITIAL, steps), d);
  }
}
