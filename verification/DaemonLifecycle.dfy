/** What a reservation answers in every case, and what whole lifecycles leave behind. */
module DaemonLifecycle {
  import opened Wrappers
  import opened OrderedDict
  import opened Daemon

  // ---------------------------------------------------------------- reservations

  /** The reservation names the same operation and configuration as the runtime's live context. */
  predicate SameReservation(m: Manager, r: RuntimeId, operation: nat, config: int) {
    r in m.runtimes && m.runtimes[r] < |m.contexts|
    && m.contexts[m.runtimes[r]].operation == operation && m.contexts[m.runtimes[r]].config == config
  }

  /** The reservation names the operation and configuration that the runtime id is recorded terminal with. */
  predicate SameRecord(m: Manager, r: RuntimeId, operation: nat, config: int) {
    r in m.completed.at && m.completed.at[r].operation == operation && m.completed.at[r].fingerprint == config
  }

  /** A reservation is repeated exactly when it is identical and its context is not stopping, finishing or done. */
  lemma {:induction false} RepeatedIff(m: Manager, r: RuntimeId, operation: nat, config: int, analytics: bool)
    requires Consistent(m)
    ensures Reserving(m, r, operation, config, analytics) == Repeated <==>
      && !m.closing && SameReservation(m, r, operation, config)
      && !m.contexts[m.runtimes[r]].stop && m.contexts[m.runtimes[r]].phase.Idle?
    ensures Reserving(m, r, operation, config, analytics).Repeated? ==>
      Apply(m, Reserve(r, operation, config, analytics)) == m
  {
    assert Owner(m, r);
  }

  /** Every refusal, and exactly when it is given. */
  lemma {:induction false} RefusedAs(m: Manager, r: RuntimeId, operation: nat, config: int, analytics: bool)
    requires Consistent(m)
    ensures var v := Reserving(m, r, operation, config, analytics);
            var free := r !in m.runtimes && r !in m.completed.at;
            && (v == Refused(ShuttingDown) <==> m.closing)
            && (v == Refused(StoppingOrTerminal) <==>
                  && !m.closing && SameReservation(m, r, operation, config)
                  && (m.contexts[m.runtimes[r]].stop || !m.contexts[m.runtimes[r]].phase.Idle?))
            && (v == Refused(ReservedByAnother) <==>
                  && !m.closing && !free
                  && !SameReservation(m, r, operation, config) && !SameRecord(m, r, operation, config))
            && (v.Refused? && v.why.AlreadyTerminal? <==> !m.closing && SameRecord(m, r, operation, config))
            && (SameRecord(m, r, operation, config) && !m.closing ==>
                  v == Refused(AlreadyTerminal(m.completed.at[r].error)))
            && (v == Refused(Expired) <==> !m.closing && free && operation <= m.floor)
            && (v == Refused(AnalyticsRefused) <==> !m.closing && free && operation > m.floor && !analytics)
  {
    assert Owner(m, r);
  }

  // ---------------------------------------------------------------- expiry of records

  function Largest(floor: nat, keys: seq<RuntimeId>, at: map<RuntimeId, Completion>): nat
    decreases |keys|
  {
    if keys == [] then floor
    else
      var operation := if keys[0] in at then at[keys[0]].operation else 0;
      Largest(if operation > floor then operation else floor, keys[1..], at)
  }

  /** Exactly the records past the newest 1024 expire, and the floor becomes the largest operation among them. */
  lemma {:induction false} ExpireNewest(d: Dict<RuntimeId, Completion>, floor: nat)
    requires Valid(d)
    ensures var (e, f) := Expire(d, floor);
            var n := if |d.keys| <= 1024 then 0 else |d.keys| - 1024;
            e.keys == d.keys[n..] && f == Largest(floor, d.keys[..n], d.at) && PartOf(e, d)
    decreases |d.keys|
  {
    hide Valid, PartOf, Largest;
    if |d.keys| <= 1024 {
      AllKeys(d);
      LargestOfNone(floor, d.at);
    } else {
      var r, n := d.keys[0], |d.keys| - 1024;
      PopFirst(d);
      DropValid(d, {r});
      var operation := if r in d.at then d.at[r].operation else 0;
      var more := if operation > floor then operation else floor;
      ExpireNewest(Pop(d, r), more);
      Shifted(d.keys, n);
      FirstApart(d);
      PartOfMore(Expire(d, floor).0, d);
      LargestElsewhere(more, d.keys[1..][..n - 1], d.at, r);
      LargestNext(floor, d.keys[..n], d.at);
    }
  }

  /** Exactly the listed keys, with the values they had. */
  ghost predicate PartOf(e: Dict<RuntimeId, Completion>, d: Dict<RuntimeId, Completion>) {
    && (forall r :: r in e.at <==> r in e.keys)
    && (forall r :: r in e.at ==> r in d.at && e.at[r] == d.at[r])
  }

  lemma PartOfMore(e: Dict<RuntimeId, Completion>, d: Dict<RuntimeId, Completion>)
    requires d.keys != [] && PartOf(e, Dict(d.keys[1..], d.at - {d.keys[0]}))
    ensures PartOf(e, d)
  {}

  lemma LargestOfNone(floor: nat, at: map<RuntimeId, Completion>)
    ensures Largest(floor, [], at) == floor
  {}

  lemma LargestNext(floor: nat, keys: seq<RuntimeId>, at: map<RuntimeId, Completion>)
    requires keys != []
    ensures var operation := if keys[0] in at then at[keys[0]].operation else 0;
            Largest(floor, keys, at) == Largest(if operation > floor then operation else floor, keys[1..], at)
  {}

  lemma AllKeys(d: Dict<RuntimeId, Completion>)
    requires Valid(d)
    ensures d.keys[0..] == d.keys && d.keys[..0] == [] && PartOf(d, d)
  {}

  lemma Shifted(keys: seq<RuntimeId>, n: nat)
    requires 0 < n <= |keys|
    ensures keys[1..][n - 1..] == keys[n..] && keys[1..][..n - 1] == keys[..n][1..] && keys[..n][0] == keys[0]
  {}

  lemma FirstApart(d: Dict<RuntimeId, Completion>)
    requires Valid(d) && d.keys != []
    ensures d.keys[0] !in d.keys[1..]
  {}

  lemma {:induction false} LargestElsewhere(
    floor: nat, keys: seq<RuntimeId>, at: map<RuntimeId, Completion>, r: RuntimeId
  )
    requires r !in keys
    ensures Largest(floor, keys, at - {r}) == Largest(floor, keys, at)
    decreases |keys|
  {
    if keys != [] {
      assert keys[0] in keys;
      var operation := if keys[0] in at then at[keys[0]].operation else 0;
      LargestElsewhere(if operation > floor then operation else floor, keys[1..], at, r);
    }
  }

  // ---------------------------------------------------------------- recording

  /** A context that owns its runtime id. */
  predicate Owns(m: Manager, i: nat) {
    i < |m.contexts| && m.contexts[i].runtime in m.runtimes && m.runtimes[m.contexts[i].runtime] == i
  }

  /** Recording the owner releases its runtime id and files its operation, configuration and error. */
  lemma {:induction false} CommitFiles(m: Manager, i: nat)
    requires Consistent(m) && Owns(m, i) && Enabled(m, FinishCommit(i))
    ensures var n, c := Apply(m, FinishCommit(i)), m.contexts[i];
            && c.runtime !in n.runtimes && c.runtime in n.completed.at
            && n.completed.at[c.runtime] == Completion(c.operation, c.config, c.error)
            && n.contexts == m.contexts[i := c.(phase := Recorded)] && n.closing == m.closing
  {
    hide Expire, Valid, Accounted, ContextsOk;
    var c := m.contexts[i];
    assert Owner(m, c.runtime);
    var d := Put(m.completed, c.runtime, Completion(c.operation, c.config, c.error));
    PutValid(m.completed, c.runtime, Completion(c.operation, c.config, c.error));
    ExpireNewest(d, m.floor);
    NewestStays(d);
  }

  lemma NewestStays(d: Dict<RuntimeId, Completion>)
    requires d.keys != []
    ensures var n := if |d.keys| <= 1024 then 0 else |d.keys| - 1024; d.keys[|d.keys| - 1] in d.keys[n..]
  {
    var n := if |d.keys| <= 1024 then 0 else |d.keys| - 1024;
    assert d.keys[n..][|d.keys| - 1 - n] == d.keys[|d.keys| - 1];
  }

  /** From then on an identical reservation is answered with the recorded error, and another one is refused. */
  lemma {:induction false} RecordedAnswers(m: Manager, i: nat, operation: nat, config: int, analytics: bool)
    requires Consistent(m) && Owns(m, i) && Enabled(m, FinishCommit(i)) && !m.closing
    ensures var n, c := Apply(m, FinishCommit(i)), m.contexts[i];
            Reserving(n, c.runtime, operation, config, analytics)
              == Refused(if operation == c.operation && config == c.config then AlreadyTerminal(c.error)
                         else ReservedByAnother)
  {
    hide Apply, Consistent;
    CommitFiles(m, i);
  }

  /** A context that was superseded is marked recorded and touches no record. */
  lemma {:induction false} StrangerRecordsNothing(m: Manager, i: nat)
    requires Enabled(m, FinishCommit(i)) && !Owns(m, i)
    ensures Apply(m, FinishCommit(i)) == m.(contexts := m.contexts[i := m.contexts[i].(phase := Recorded)])
  {}

  // ---------------------------------------------------------------- a whole lifecycle

  /** A new context's place. */
  function Place(m: Manager): nat {
    |m.contexts|
  }

  /** The state of the context at `i`, owned, with everything else about the manager as it was in `m`. */
  predicate At(m: Manager, n: Manager, i: nat, c: Context) {
    && i < |n.contexts| && n.contexts[i] == c && n.runtimes == m.runtimes[c.runtime := i]
    && n.completed == m.completed && n.floor == m.floor && n.closing == m.closing
  }

  lemma ReserveStep(m: Manager, r: RuntimeId, operation: nat, config: int)
    requires Reserving(m, r, operation, config, true).Admitted?
    ensures At(m, Apply(m, Reserve(r, operation, config, true)), Place(m), NewContext(r, operation, config))
    ensures Apply(m, Reserve(r, operation, config, true)).admitted == m.admitted
    ensures Apply(m, Reserve(r, operation, config, true)).handed == m.handed
  {
    hide Reserving;
  }

  /** Binding succeeds exactly on an admissible context without a terminal, which then holds a new descriptor. */
  lemma {:induction false} BindIff(m: Manager, i: nat)
    requires i < |m.contexts|
    ensures var n, c := Apply(m, Bind(i)), m.contexts[i];
            && (n.admitted == m.admitted + 1 <==>
                  !m.closing && !c.stop && c.phase.Idle? && !c.bridge && !c.thread)
            && (n.admitted == m.admitted + 1 ==>
                  && n.contexts == m.contexts[i := c.(bridge := true, descriptor := Some(m.admitted))]
                  && n == m.(contexts := n.contexts, admitted := n.admitted))
            && (n.admitted != m.admitted + 1 ==> n == m)
  {}

  /** Starting succeeds exactly on an admissible context with a terminal and no service; the descriptor moves to it. */
  lemma {:induction false} StartIff(m: Manager, i: nat, launched: bool)
    requires i < |m.contexts|
    ensures var n, c := Apply(m, Start(i, launched)), m.contexts[i];
            var ready := !m.closing && !c.stop && c.phase.Idle? && c.bridge && c.descriptor.Some? && !c.thread;
            && (ready && launched ==>
                  && n.contexts == m.contexts[i := c.(thread := true, descriptor := None)]
                  && n.handed == m.handed + multiset{c.descriptor.value}
                  && n == m.(contexts := n.contexts, handed := n.handed))
            && (!(ready && launched) ==> n == m)
  {}

  /** Stopping closes a descriptor still held, and a service that never started will be recorded as cancelled. */
  lemma {:induction false} StopCancels(m: Manager, i: nat)
    requires i < |m.contexts|
    ensures var n, c := Apply(m, Stop(i)), m.contexts[i];
            && n.contexts[i].stop && n.contexts[i].descriptor.None? && n.contexts[i].thread == c.thread
            && (c.descriptor.Some? ==> n.closed[c.descriptor.value] == m.closed[c.descriptor.value] + 1)
            && (!c.thread && c.error.None? ==>
                  n.contexts[i].error == Some("runtime reservation was cancelled before service start"))
            && (c.thread || c.error.Some? ==> n.contexts[i].error == c.error)
            && (n.owed[i] == m.owed[i] + (if c.thread && !c.serviceFinished then 0 else 1))
  {}

  lemma EndStep(m: Manager, i: nat, failure: Option<string>)
    requires Enabled(m, ServiceEnd(i, failure))
    ensures var n, c := Apply(m, ServiceEnd(i, failure)), m.contexts[i];
            && n.contexts == m.contexts[i := c.(serviceFinished := true,
                                                error := if failure.Some? then failure else c.error)]
            && n.owed[i] > 0 && n == m.(contexts := n.contexts, owed := n.owed)
  {}

  lemma BeginStep(m: Manager, i: nat)
    requires Enabled(m, FinishBegin(i)) && m.contexts[i].phase.Idle?
    ensures var n, c := Apply(m, FinishBegin(i)), m.contexts[i];
            && n.contexts == m.contexts[i := c.(phase := Begun, bridge := false)]
            && n == m.(contexts := n.contexts, owed := n.owed)
  {}

  lemma Then(m: Manager, steps: seq<Step>, s: Step)
    requires Runnable(m, steps) && Enabled(Run(m, steps), s)
    ensures Runnable(m, steps + [s]) && Run(m, steps + [s]) == Apply(Run(m, steps), s)
    decreases |steps|
  {
    hide Apply, Enabled;
    if steps == [] {
      assert steps + [s] == [s] && [s][1..] == [];
    } else {
      Then(Apply(m, steps[0]), steps[1..], s);
      assert (steps + [s])[1..] == steps[1..] + [s];
    }
  }

  /** Reserved, bound and started: the service runs and owns its descriptor. */
  lemma {:induction false} ServiceRuns(m: Manager, r: RuntimeId, operation: nat, config: int)
    requires Reserving(m, r, operation, config, true).Admitted?
    ensures var i := Place(m);
            var steps := [Reserve(r, operation, config, true), Bind(i), Start(i, true)];
            && Runnable(m, steps)
            && var n := Run(m, steps);
               && At(m, n, i, NewContext(r, operation, config).(bridge := true, thread := true))
               && n.handed == m.handed + multiset{m.admitted}
  {
    hide Apply, Reserving, Run, Runnable;
    NotClosing(m, r, operation, config);
    var i := Place(m);
    var m1 := Apply(m, Reserve(r, operation, config, true));
    ReserveStep(m, r, operation, config);
    var m2 := Apply(m1, Bind(i));
    BindIff(m1, i);
    StartIff(m2, i, true);
    Once(m, Reserve(r, operation, config, true));
    Then(m, [Reserve(r, operation, config, true)], Bind(i));
    Then(m, [Reserve(r, operation, config, true)] + [Bind(i)], Start(i, true));
    assert [Reserve(r, operation, config, true)] + [Bind(i)] + [Start(i, true)]
        == [Reserve(r, operation, config, true), Bind(i), Start(i, true)];
  }

  lemma NotClosing(m: Manager, r: RuntimeId, operation: nat, config: int)
    requires Reserving(m, r, operation, config, true).Admitted?
    ensures !m.closing
  {}

  lemma Once(m: Manager, s: Step)
    requires Enabled(m, s)
    ensures Runnable(m, [s]) && Run(m, [s]) == Apply(m, s)
  {
    assert [s][1..] == [];
  }

  /**
   A whole lifecycle from any consistent manager that admits it: reserved, bound, started, ended with or
   without a failure, finalized. It is recorded with that failure, its descriptor was handed over once,
   and the same reservation is answered with that failure while any other of its runtime id is refused.
   */
  lemma {:induction false} LifecycleRecorded(
    m: Manager, r: RuntimeId, operation: nat, config: int, failure: Option<string>, again: nat, other: int
  )
    requires Consistent(m) && Reserving(m, r, operation, config, true).Admitted?
    ensures var i := Place(m);
            var steps := [Reserve(r, operation, config, true), Bind(i), Start(i, true)]
                         + [ServiceEnd(i, failure)] + [FinishBegin(i)] + [FinishCommit(i)];
            && Runnable(m, steps)
            && var n := Run(m, steps);
               && n.handed == m.handed + multiset{m.admitted}
               && (r, operation) in n.terminal
               && Reserving(n, r, again, other, true)
                  == Refused(if again == operation && other == config then AlreadyTerminal(failure)
                             else ReservedByAnother)
  {
    hide Apply, Reserving, Run, Runnable, Consistent;
    NotClosing(m, r, operation, config);
    var i := Place(m);
    var start := [Reserve(r, operation, config, true), Bind(i), Start(i, true)];
    ServiceRuns(m, r, operation, config);
    var n3 := Run(m, start);
    EndStep(n3, i, failure);
    var n4 := Apply(n3, ServiceEnd(i, failure));
    BeginStep(n4, i);
    var n5 := Apply(n4, FinishBegin(i));
    Then(m, start, ServiceEnd(i, failure));
    Then(m, start + [ServiceEnd(i, failure)], FinishBegin(i));
    Then(m, start + [ServiceEnd(i, failure)] + [FinishBegin(i)], FinishCommit(i));
    RunConsistent(m, start + [ServiceEnd(i, failure)] + [FinishBegin(i)]);
    RecordedAnswers(n5, i, again, other, true);
    CommitMoves(n5, i);
  }

  lemma CommitMoves(m: Manager, i: nat)
    requires Enabled(m, FinishCommit(i)) && Owns(m, i)
    ensures Apply(m, FinishCommit(i)).handed == m.handed
    ensures (m.contexts[i].runtime, m.contexts[i].operation) in Apply(m, FinishCommit(i)).terminal
  {
    hide Expire;
  }
}
