/** The daemon's managed runtimes and manager as objects: each lock section over its own fields. */
module DaemonRuntimes {
  import opened Wrappers
  import opened OrderedDict
  import opened Daemon

  class ManagedRuntime {
    const runtime: RuntimeId
    const operation: nat
    const config: int
    var stop: bool
    var finishing: bool
    var done: bool
    var bridge: bool
    var descriptor: Option<Descriptor>
    var thread: bool
    var serviceFinished: bool
    var error: Option<string>
    /** Whether the recording section of the current finalization has run. */
    ghost var recorded: bool

    ghost function Model(): Context
      reads this
    {
      Context(runtime, operation, config, stop,
              if done then Done else if !finishing then Idle else if recorded then Recorded else Begun,
              bridge, descriptor, thread, serviceFinished, error)
    }

    constructor (runtime: RuntimeId, operation: nat, config: int)
      ensures Model() == NewContext(runtime, operation, config)
    {
      this.runtime, this.operation, this.config := runtime, operation, config;
      stop, finishing, done, bridge, descriptor := false, false, false, false, None;
      thread, serviceFinished, error, recorded := false, false, None, false;
    }

    method RequireAdmission(closing: bool) returns (refusal: Option<Refusal>)
      ensures refusal == if Admissible(Model(), closing) then None else Some(StoppingOrTerminal)
    {
      return if closing || stop || finishing || done then Some(StoppingOrTerminal) else None;
    }

    /** Take ownership of an admitted terminal, unless the bridge was already consumed. */
    method BindTerminal(closing: bool, d: Descriptor) returns (refusal: Option<Refusal>)
      modifies this`bridge, this`descriptor
      ensures refusal == BindOutcome(old(Model()), closing)
      ensures Model() == if refusal.None? then Bound(old(Model()), d) else old(Model())
    {
      refusal := RequireAdmission(closing);
      if refusal.Some? {
        return;
      }
      if bridge || thread {
        return Some(BridgeConsumed);
      }
      bridge, descriptor := true, Some(d);
    }

    /** Hand the descriptor to a launched service; a failed launch keeps it for the stop that follows. */
    method StartBoundRuntime(closing: bool, launched: bool) returns (handed: Result<Descriptor, Refusal>)
      modifies this`thread, this`descriptor
      ensures handed.Failure? <==> StartOutcome(old(Model()), closing, launched).Some?
      ensures handed.Failure? ==>
        Some(handed.error) == StartOutcome(old(Model()), closing, launched) && Model() == old(Model())
      ensures handed.Success? ==> Model() == Launched(old(Model())) && Some(handed.value) == old(descriptor)
    {
      var refusal := RequireAdmission(closing);
      if refusal.Some? {
        return Failure(refusal.value);
      }
      if descriptor.None? || !bridge {
        return Failure(NoBridge);
      }
      if thread {
        return Failure(AlreadyStarted);
      }
      if !launched {
        return Failure(StartFailed);
      }
      handed := Success(descriptor.value);
      thread, descriptor := true, None;
    }

    /** Returns the descriptor the caller must close, and whether the caller goes on to finalize. */
    method StopSection() returns (toClose: Option<Descriptor>, finishes: bool)
      modifies this`stop, this`descriptor, this`error
      ensures Model() == Stopped(old(Model()))
      ensures toClose == old(descriptor) && finishes == StopFinishes(old(Model()))
    {
      stop := true;
      toClose, descriptor := descriptor, None;
      if !thread && error.None? {
        error := Some("runtime reservation was cancelled before service start");
      }
      finishes := !thread || serviceFinished;
    }

    method EndService(failure: Option<string>)
      modifies this`serviceFinished, this`error
      ensures Model() == ServiceEnded(old(Model()), failure)
    {
      if failure.Some? {
        error := failure;
      }
      serviceFinished := true;
    }

    /** Of all callers that reach finalization, one at a time proceeds. */
    method BeginFinish() returns (proceeds: bool)
      modifies this`finishing, this`bridge, this`recorded
      ensures Model() == FinishBegun(old(Model()))
      ensures proceeds == old(Model()).phase.Idle?
    {
      if finishing || done {
        return false;
      }
      finishing, bridge, recorded := true, false, false;
      return true;
    }

    method FailFinish(reason: string)
      requires Model().phase.Begun?
      modifies this`error, this`finishing, this`stop
      ensures Model() == FinishFailed(old(Model()), reason)
    {
      error, finishing, stop := Some(reason), false, true;
    }

    method SignalDone()
      requires Model().phase.Recorded?
      modifies this`done
      ensures Model() == old(Model()).(phase := Done)
    {
      done := true;
    }
  }

  predicate DistinctObjects(cs: seq<ManagedRuntime>) {
    forall i, j :: 0 <= i < j < |cs| ==> cs[i] != cs[j]
  }

  ghost function Models(cs: seq<ManagedRuntime>): (ms: seq<Context>)
    reads cs
    ensures |ms| == |cs| && forall i :: 0 <= i < |cs| ==> ms[i] == cs[i].Model()
  {
    seq(|cs|, i requires 0 <= i < |cs| reads cs => cs[i].Model())
  }

  /** A section that writes one context updates the abstract contexts at its place. */
  lemma OneChanged(cs: seq<ManagedRuntime>, before: seq<Context>, i: nat)
    requires i < |cs| == |before| && forall j :: 0 <= j < |cs| && j != i ==> cs[j].Model() == before[j]
    ensures Models(cs) == before[i := cs[i].Model()]
  {}

  /** The runtime map holds exactly the contexts at the owners' places. */
  ghost predicate Placed(
    cs: seq<ManagedRuntime>, places: map<RuntimeId, nat>, runtimes: map<RuntimeId, ManagedRuntime>
  )
  {
    && DistinctObjects(cs) && runtimes.Keys == places.Keys
    && forall r :: r in places ==> places[r] < |cs| && cs[places[r]] == runtimes[r]
  }

  lemma OneMore(cs: seq<ManagedRuntime>, before: seq<Context>)
    requires |cs| == |before| + 1 && forall j :: 0 <= j < |before| ==> cs[j].Model() == before[j]
    ensures Models(cs) == before + [cs[|before|].Model()]
  {}

  lemma PlacedOneMore(
    cs: seq<ManagedRuntime>, places: map<RuntimeId, nat>, runtimes: map<RuntimeId, ManagedRuntime>, r: RuntimeId,
    c: ManagedRuntime
  )
    requires Placed(cs, places, runtimes) && r !in places && c !in cs
    ensures Placed(cs + [c], places[r := |cs|], runtimes[r := c])
  {}

  lemma Apart(
    cs: seq<ManagedRuntime>, places: map<RuntimeId, nat>, runtimes: map<RuntimeId, ManagedRuntime>, i: nat
  )
    requires Placed(cs, places, runtimes) && i < |cs|
    ensures forall j :: 0 <= j < |cs| && j != i ==> cs[j] != cs[i]
  {}

  class DaemonRuntimeManager {
    var runtimes: map<RuntimeId, ManagedRuntime>
    var completed: Dict<RuntimeId, Completion>
    var floor: nat
    var closing: bool
    /** Every context ever reserved, and the place of each owner among them. */
    ghost var contexts: seq<ManagedRuntime>
    ghost var places: map<RuntimeId, nat>
    /** The callers on their way to finalize, and where the descriptors went. */
    ghost var owed: multiset<nat>
    ghost var handed: multiset<Descriptor>
    ghost var closed: multiset<Descriptor>
    ghost var admitted: nat
    ghost var terminal: set<(RuntimeId, nat)>

    ghost function Model(): Manager
      reads this, contexts
    {
      Manager(Models(contexts), places, completed, floor, closing, owed, handed, closed, admitted, terminal)
    }

    ghost predicate Valid()
      reads this, contexts
    {
      Placed(contexts, places, runtimes) && Consistent(Model())
    }

    ghost predicate Holds(context: ManagedRuntime, i: nat)
      reads this
    {
      i < |contexts| && contexts[i] == context
    }

    constructor ()
      ensures Valid() && Model() == INITIAL && contexts == []
    {
      runtimes, completed, floor, closing := map[], Empty(), 0, false;
      contexts, places, owed, handed, closed := [], map[], multiset{}, multiset{}, multiset{};
      admitted, terminal := 0, {};
      new;
      InitialConsistent();
    }

    /** `analytics` says whether the coordinator accepts the reservation. */
    method ReserveRuntime(r: RuntimeId, operation: nat, config: int, analytics: bool) returns (outcome: Reservation)
      requires Valid()
      modifies this`runtimes, this`contexts, this`places
      ensures Valid() && Model() == Apply(old(Model()), Reserve(r, operation, config, analytics))
      ensures outcome == Reserving(old(Model()), r, operation, config, analytics)
      ensures old(contexts) <= contexts
      ensures outcome.Admitted? ==> |contexts| == |old(contexts)| + 1 && fresh(contexts[|contexts| - 1])
    {
      hide Consistent;
      StepConsistent(Model(), Reserve(r, operation, config, analytics));
      if closing {
        return Refused(ShuttingDown);
      }
      if r in runtimes {
        var existing := runtimes[r];
        if existing.operation == operation && existing.config == config {
          var refusal := existing.RequireAdmission(closing);
          return if refusal.Some? then Refused(refusal.value) else Repeated;
        }
        return Refused(ReservedByAnother);
      }
      if r in completed.at {
        var c := completed.at[r];
        return if c.operation != operation || c.fingerprint != config then Refused(ReservedByAnother)
               else Refused(AlreadyTerminal(c.error));
      }
      if operation <= floor {
        return Refused(Expired);
      }
      if !analytics {
        return Refused(AnalyticsRefused);
      }
      Admit(r, operation, config);
      return Admitted;
    }

    method Admit(r: RuntimeId, operation: nat, config: int)
      requires Placed(contexts, places, runtimes) && r !in places
      modifies this`runtimes, this`contexts, this`places
      ensures Placed(contexts, places, runtimes) && |contexts| == |old(contexts)| + 1 && old(contexts) <= contexts
      ensures fresh(contexts[|contexts| - 1])
      ensures Models(contexts) == old(Models(contexts)) + [NewContext(r, operation, config)]
      ensures places == old(places)[r := |old(contexts)|]
    {
      hide Placed;
      ghost var before := Models(contexts);
      var context := new ManagedRuntime(r, operation, config);
      PlacedOneMore(contexts, places, runtimes, r, context);
      runtimes := runtimes[r := context];
      places := places[r := |contexts|];
      contexts := contexts + [context];
      OneMore(contexts, before);
    }

    /** The descriptor is named by its place in the order of admissions. */
    method BindTerminal(context: ManagedRuntime, d: Descriptor, ghost i: nat) returns (refusal: Option<Refusal>)
      requires Valid() && Holds(context, i) && d == admitted
      modifies this`admitted, context`bridge, context`descriptor
      ensures Valid() && Model() == Apply(old(Model()), Bind(i))
      ensures refusal == BindOutcome(old(context.Model()), closing)
    {
      hide Consistent, Placed;
      ghost var before := Models(contexts);
      Apart(contexts, places, runtimes, i);
      StepConsistent(Model(), Bind(i));
      refusal := context.BindTerminal(closing, d);
      OneChanged(contexts, before, i);
      if refusal.None? {
        admitted := admitted + 1;
      }
    }

    method StartBoundRuntime(context: ManagedRuntime, launched: bool, ghost i: nat)
      returns (started: Result<Descriptor, Refusal>)
      requires Valid() && Holds(context, i)
      modifies this`handed, context`thread, context`descriptor
      ensures Valid() && Model() == Apply(old(Model()), Start(i, launched))
      ensures started.Success? <==> StartOutcome(old(context.Model()), closing, launched).None?
    {
      hide Consistent, Placed;
      ghost var before := Models(contexts);
      Apart(contexts, places, runtimes, i);
      StepConsistent(Model(), Start(i, launched));
      ghost var was := context.Model();
      started := context.StartBoundRuntime(closing, launched);
      OneChanged(contexts, before, i);
      if started.Success? {
        handed := handed + Held(was);
      }
    }

    /** Returns the descriptor that the caller now closes and whether it goes on to finalize. */
    method StopContext(context: ManagedRuntime, ghost i: nat) returns (toClose: Option<Descriptor>, finishes: bool)
      requires Valid() && Holds(context, i)
      modifies this`closed, this`owed, context`stop, context`descriptor, context`error
      ensures Valid() && Model() == Apply(old(Model()), Stop(i))
      ensures toClose == old(context.descriptor) && (finishes ==> owed[i] > 0)
    {
      hide Consistent, Placed, Stopped, Apply, Held, StopFinishes, Models;
      StepConsistent(Model(), Stop(i));
      StopApplies(Model(), i);
      toClose, finishes := StopAndAccount(context, i);
    }

    method StopAndAccount(context: ManagedRuntime, ghost i: nat) returns (toClose: Option<Descriptor>, finishes: bool)
      requires Placed(contexts, places, runtimes) && Holds(context, i)
      modifies this`closed, this`owed, context`stop, context`descriptor, context`error
      ensures var c := old(Models(contexts))[i];
              && Models(contexts) == old(Models(contexts))[i := Stopped(c)] && closed == old(closed) + Held(c)
              && owed == (if StopFinishes(c) then old(owed) + multiset{i} else old(owed))
              && finishes == StopFinishes(c)
      ensures toClose == old(context.descriptor)
    {
      hide Placed, Stopped, Held;
      ghost var before := Models(contexts);
      Apart(contexts, places, runtimes, i);
      closed := closed + Held(before[i]);
      toClose, finishes := context.StopSection();
      OneChanged(contexts, before, i);
      owed := if finishes then owed + multiset{i} else owed;
    }

    method EndService(context: ManagedRuntime, failure: Option<string>, ghost i: nat)
      requires Valid() && Holds(context, i) && context.thread && !context.serviceFinished
      modifies this`owed, context`serviceFinished, context`error
      ensures Valid() && Model() == Apply(old(Model()), ServiceEnd(i, failure)) && owed[i] > 0
    {
      hide Consistent, Placed;
      ghost var before := Models(contexts);
      Apart(contexts, places, runtimes, i);
      StepConsistent(Model(), ServiceEnd(i, failure));
      context.EndService(failure);
      OneChanged(contexts, before, i);
      owed := owed + multiset{i};
    }

    method BeginFinish(context: ManagedRuntime, ghost i: nat) returns (proceeds: bool)
      requires Valid() && Holds(context, i) && owed[i] > 0
      modifies this`owed, context`finishing, context`bridge, context`recorded
      ensures Valid() && Model() == Apply(old(Model()), FinishBegin(i))
      ensures proceeds ==> context.Model().phase.Begun?
    {
      hide Consistent, Placed;
      ghost var before := Models(contexts);
      Apart(contexts, places, runtimes, i);
      StepConsistent(Model(), FinishBegin(i));
      proceeds := context.BeginFinish();
      OneChanged(contexts, before, i);
      owed := owed - multiset{i};
    }

    method FailFinish(context: ManagedRuntime, reason: string, ghost i: nat)
      requires Valid() && Holds(context, i) && context.Model().phase.Begun?
      modifies context`error, context`finishing, context`stop
      ensures Valid() && Model() == Apply(old(Model()), FinishFail(i, reason))
    {
      hide Consistent, Placed;
      ghost var before := Models(contexts);
      Apart(contexts, places, runtimes, i);
      StepConsistent(Model(), FinishFail(i, reason));
      context.FailFinish(reason);
      OneChanged(contexts, before, i);
    }

    /** The recording section of finalization, with its expiry of old completion records. */
    method RecordTerminal(context: ManagedRuntime, ghost i: nat)
      requires Valid() && Holds(context, i) && context.Model().phase.Begun?
      modifies this`runtimes, this`completed, this`floor, this`places, this`terminal, context`recorded
      ensures Valid() && Model() == Apply(old(Model()), FinishCommit(i))
      ensures context.Model().phase.Recorded?
    {
      hide Consistent, Placed, Committed, Models;
      StepConsistent(Model(), FinishCommit(i));
      CommitApplies(Model(), i);
      Commit(context, i);
    }

    method Commit(context: ManagedRuntime, ghost i: nat)
      requires Valid() && Holds(context, i) && context.Model().phase.Begun?
      modifies this`runtimes, this`completed, this`floor, this`places, this`terminal, context`recorded
      ensures Placed(contexts, places, runtimes) && Model() == Committed(old(Model()), i)
      ensures context.Model().phase.Recorded?
    {
      hide Consistent, Expire, Placed, Committed;
      ghost var before := Models(contexts);
      Apart(contexts, places, runtimes, i);
      CommittedIs(Model(), i);
      RecordOwner(context, i);
      context.recorded := true;
      OneChanged(contexts, before, i);
    }

    /** The owner's completion is recorded and its runtime id released; another context leaves no trace. */
    method RecordOwner(context: ManagedRuntime, ghost i: nat)
      requires Valid() && Holds(context, i)
      modifies this`runtimes, this`completed, this`floor, this`places, this`terminal
      ensures Placed(contexts, places, runtimes)
      ensures var n := Committed(old(Model()), i);
              completed == n.completed && floor == n.floor && places == n.runtimes && terminal == n.terminal
    {
      hide Consistent, Expire, Placed, Put;
      RecordsValid(Model());
      OwnerIff(context, i);
      if context.runtime in runtimes && runtimes[context.runtime] == context {
        Release(context);
        terminal := terminal + {(context.runtime, context.operation)};
      }
    }

    /** The runtime map points at the context exactly when its owner's place is the context's. */
    lemma OwnerIff(context: ManagedRuntime, i: nat)
      requires Placed(contexts, places, runtimes) && Holds(context, i)
      ensures context.runtime in runtimes && runtimes[context.runtime] == context
         <==> context.runtime in places && places[context.runtime] == i
    {}

    method Release(context: ManagedRuntime)
      requires Placed(contexts, places, runtimes) && OrderedDict.Valid(completed) && context.runtime in runtimes
      modifies this`runtimes, this`completed, this`floor, this`places
      ensures Placed(contexts, places, runtimes) && places == old(places) - {context.runtime}
      ensures (completed, floor) == Expire(
        Put(old(completed), context.runtime, Completion(context.operation, context.config, context.error)), old(floor))
    {
      hide Expire;
      var completion := Completion(context.operation, context.config, context.error);
      PutValid(completed, context.runtime, completion);
      completed := Put(completed, context.runtime, completion);
      runtimes, places := runtimes - {context.runtime}, places - {context.runtime};
      ExpireRecords();
    }

    method ExpireRecords()
      requires OrderedDict.Valid(completed)
      modifies this`completed, this`floor
      ensures (completed, floor) == Expire(old(completed), old(floor))
    {
      while |completed.keys| > COMPLETION_LIMIT
        invariant OrderedDict.Valid(completed) && Expire(completed, floor) == Expire(old(completed), old(floor))
        decreases |completed.keys|
      {
        var r := completed.keys[0];
        PopFirst(completed);
        DropValid(completed, {r});
        var operation := completed.at[r].operation;
        completed := Pop(completed, r);
        floor := if operation > floor then operation else floor;
      }
    }

    method SignalDone(context: ManagedRuntime, ghost i: nat)
      requires Valid() && Holds(context, i) && context.Model().phase.Recorded?
      modifies context`done
      ensures Valid() && Model() == Apply(old(Model()), FinishDone(i))
    {
      hide Consistent, Placed;
      ghost var before := Models(contexts);
      Apart(contexts, places, runtimes, i);
      StepConsistent(Model(), FinishDone(i));
      context.SignalDone();
      OneChanged(contexts, before, i);
    }

    method BeginClose()
      requires Valid()
      modifies this`closing
      ensures Valid() && Model() == Apply(old(Model()), Close)
    {
      hide Consistent;
      StepConsistent(Model(), Close);
      closing := true;
    }
  }

  /** The recording section leaves everything but the records and the context's phase alone. */
  lemma CommittedIs(m: Manager, i: nat)
    requires i < |m.contexts|
    ensures var n := Committed(m, i);
            n == m.(contexts := m.contexts[i := m.contexts[i].(phase := Recorded)], completed := n.completed,
                    floor := n.floor, runtimes := n.runtimes, terminal := n.terminal)
  {
    hide Expire;
  }

  lemma StopApplies(m: Manager, i: nat)
    requires i < |m.contexts|
    ensures var c := m.contexts[i];
            Apply(m, Stop(i))
            == m.(contexts := m.contexts[i := Stopped(c)], closed := m.closed + Held(c),
                  owed := if StopFinishes(c) then m.owed + multiset{i} else m.owed)
  {}

  lemma RecordsValid(m: Manager)
    requires Consistent(m)
    ensures Valid(m.completed)
  {}
}
