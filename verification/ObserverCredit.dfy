/**
 Lost history is never taken as proof of new work: within one epoch a (request, target) pair is
 credited with starting an agent's work at most once, whatever was evicted, expired or retired.
 */
module ObserverCredit {
  import opened Wrappers
  import opened OrderedDict
  import opened Observer
  import opened Finite

  /** The pair this operation credits: the request it attributes the target's current work to. */
  function Credits(p: Producer, op: Op): Option<(Key, Id)> {
    if !op.Start? then None
    else
      var credited := StartAgentWork(p, op.target, op.turn, op.request, op.reading, op.now).credited;
      if credited.None? then None else Some((KeyOf(p, credited.value), op.target))
  }

  /** A pair that can no longer be credited in this epoch. */
  predicate Guarded(p: Producer, k: Key, t: Id) {
    var at := p.protocol.correlations.at;
    if k in at then at[k].uncertain || t in at[k].started else p.incomplete
  }

  predicate Spent(p: Producer, k: Key, t: Id) {
    k.epoch < p.epoch || Guarded(p, k, t)
  }

  /** No pair becomes creditable again between the two states of one epoch, and lost history stays lost. */
  ghost predicate Keeps(p: Producer, q: Producer) {
    && q.epoch == p.epoch && q.root == p.root
    && (p.incomplete ==> q.incomplete)
    && (forall k, t :: Guarded(p, k, t) ==> Guarded(q, k, t))
  }

  lemma KeepsItself(p: Producer)
    ensures Keeps(p, p)
  {}

  lemma AmendKeeps(p: Producer, k: Key, c: Correlation)
    requires k in p.protocol.correlations.at
    requires Record(p, k).uncertain ==> c.uncertain
    requires Record(p, k).started <= c.started
    ensures Keeps(p, Amended(p, k, c))
  {}

  lemma CreateKeeps(p: Producer, k: Key, now: int)
    requires k !in p.protocol.correlations.at
    ensures Keeps(p, Amended(p, k, Blank(now, p.incomplete)))
  {}

  lemma EvictKeeps(p: Producer, k: Key)
    ensures Keeps(p, Evicted(p, k)) && Evicted(p, k).incomplete
  {}

  lemma {:induction false} RoomKeeps(p: Producer)
    ensures Keeps(p, WithRoom(p)) && WithRoom(p).protocol.work == p.protocol.work
    ensures forall k :: k in WithRoom(p).protocol.correlations.at ==> k in p.protocol.correlations.at
    decreases |p.protocol.correlations.keys|
  {
    if |p.protocol.correlations.keys| >= CORRELATION_LIMIT {
      EvictKeeps(p, p.protocol.correlations.keys[0]);
      RoomKeeps(Evicted(p, p.protocol.correlations.keys[0]));
    }
  }

  lemma TouchKeeps(p: Producer, item: Id, now: int)
    ensures Keeps(p, Touched(p, item, now)) && Touched(p, item, now).protocol.work == p.protocol.work
    ensures KeyOf(p, item) in Touched(p, item, now).protocol.correlations.at
  {
    if KeyOf(p, item) !in p.protocol.correlations.at {
      RoomKeeps(p);
      CreateKeeps(WithRoom(p), KeyOf(p, item), now);
    }
  }

  lemma IndexKeeps(p: Producer, k: Key, target: Id)
    requires k in p.protocol.correlations.at
    ensures Keeps(p, Indexed(p, k, target)) && k in Indexed(p, k, target).protocol.correlations.at
    ensures Record(Indexed(p, k, target), k).uncertain == Record(p, k).uncertain
    ensures Record(Indexed(p, k, target), k).started == Record(p, k).started
  {}

  lemma {:induction false} IndexAllKeeps(p: Producer, k: Key, targets: seq<Id>)
    requires k in p.protocol.correlations.at
    ensures Keeps(p, IndexedAll(p, k, targets)) && IndexedAll(p, k, targets).protocol.work == p.protocol.work
    decreases |targets|
  {
    if targets != [] {
      IndexKeeps(p, k, targets[0]);
      IndexAllKeeps(Indexed(p, k, targets[0]), k, targets[1..]);
    }
  }

  lemma {:induction false} PayloadsKeep(p: Producer)
    ensures Keeps(p, PayloadsBounded(p)) && PayloadsBounded(p).protocol.work == p.protocol.work
    decreases |p.protocol.payloads.keys|
  {
    if !PayloadsFit(p.protocol.payloads) && p.protocol.payloads.keys != [] {
      PayloadsKeep(PayloadRetired(p, p.protocol.payloads.keys[0]));
    }
  }

  lemma {:induction false} ExpireKeeps(p: Producer, keys: seq<Key>, now: int)
    ensures Keeps(p, ExpiredFrom(p, keys, now)) && ExpiredFrom(p, keys, now).protocol.work == p.protocol.work
    decreases |keys|
  {
    if keys != [] {
      var due := keys[0] in p.protocol.correlations.at && p.protocol.correlations.at[keys[0]].expires <= now;
      var q := if due then Evicted(p, keys[0]) else p;
      EvictKeeps(p, keys[0]);
      ExpireKeeps(q, keys[1..], now);
    }
  }

  lemma AssignKeeps(p: Producer, target: Id, turn: Option<Id>, request: Option<Id>)
    ensures Keeps(p, Assigned(p, target, turn, request).state)
    ensures Assigned(p, target, turn, request).state.protocol.correlations == p.protocol.correlations
    ensures Assigned(p, target, turn, request).credited.Some?
         ==> Assigned(p, target, turn, request).credited == request
  {}

  /** A credit is given only to a pair that could still be credited, and uses it up. */
  lemma {:induction false} StartCredits(
    p: Producer, target: Id, turn: Option<Id>, request: Option<Id>, reading: Option<Id>, now: int
  )
    ensures var s := StartAgentWork(p, target, turn, request, reading, now);
            && Keeps(p, s.state)
            && (s.credited.Some? ==>
                  && s.credited == request && !Guarded(p, KeyOf(p, request.value), target)
                  && Guarded(s.state, KeyOf(p, request.value), target))
  {
    hide WithRoom;
    if request.None? {
      AssignKeeps(p, target, turn, None);
    } else {
      var q, k := Touched(p, request.value, now), KeyOf(p, request.value);
      TouchKeeps(p, request.value, now);
      if !Full(Record(q, k), target) {
        var r := Indexed(q, k, target);
        IndexKeeps(q, k, target);
        var c := Record(r, k);
        if target !in c.started && target !in c.finished {
          if !c.uncertain {
            var m := Amended(r, k, c.(started := c.started + {target}));
            AmendKeeps(r, k, c.(started := c.started + {target}));
            AssignKeeps(m, target, turn, request);
            assert !Guarded(q, k, target);
          } else if reading.Some? {
            AssignKeeps(r, target, reading, None);
          }
        }
      }
    }
  }

  lemma RememberKeeps(p: Producer, target: Id, path: Option<string>)
    ensures var r := Remembered(p, target, path).state;
            Keeps(p, r) && r.protocol.correlations == p.protocol.correlations && r.protocol.work == p.protocol.work
  {}

  lemma ActivityKeeps(p: Producer, item: Id, e: Observer.Activity, now: int)
    ensures Keeps(p, RememberActivity(p, item, e, now).state)
    ensures RememberActivity(p, item, e, now).state.protocol.work == p.protocol.work
  {
    hide Touched, Remembered;
    var q, k := Touched(p, item, now), KeyOf(p, item);
    TouchKeeps(p, item, now);
    var c := Record(q, k);
    var r := Remembered(q, e.agent, Some(e.path));
    RememberKeeps(q, e.agent, Some(e.path));
    var kept := c.(activities := c.activities[e.agent := e.(attached := false)]);
    AmendKeeps(r.state, k, kept);
    IndexKeeps(Amended(r.state, k, kept), k, e.agent);
  }

  lemma InvocationKeeps(p: Producer, item: Id, call: Invocation, now: int)
    ensures Keeps(p, RememberInvocation(p, item, call, now).state)
    ensures RememberInvocation(p, item, call, now).state.protocol.work == p.protocol.work
  {
    hide WithRoom;
    var q, k := Touched(p, item, now), KeyOf(p, item);
    TouchKeeps(p, item, now);
    var c := Record(q, k);
    var m := Amended(q, k, c.(phases := c.phases + {call.phase}));
    AmendKeeps(q, k, c.(phases := c.phases + {call.phase}));
    var r := IndexedAll(m, k, call.receivers);
    IndexAllKeeps(m, k, call.receivers);
    PayloadsKeep(r.(protocol := r.protocol.(payloads := Put(r.protocol.payloads, k, call))));
  }

  lemma SettleKeeps(p: Producer, item: Id, now: int)
    ensures Keeps(p, SettleCorrelation(p, item, now))
    ensures SettleCorrelation(p, item, now).protocol.work == p.protocol.work
  {
    hide WithRoom;
    TouchKeeps(p, item, now);
  }

  lemma CompleteKeeps(p: Producer, item: Id, target: Id, now: int)
    ensures Keeps(p, CompleteActivity(p, item, target, now))
    ensures CompleteActivity(p, item, target, now).protocol.work == p.protocol.work
  {
    hide WithRoom;
    TouchKeeps(p, item, now);
    var q, k := Touched(p, item, now), KeyOf(p, item);
    var c := Record(q, k).(completed := Record(q, k).completed + {target});
    AmendKeeps(q, k, c);
    SettleKeeps(Amended(q, k, c), item, now);
  }

  lemma ContextKeeps(p: Producer, item: Id, target: Id, now: int)
    ensures Keeps(p, MarkContextSent(p, item, target, now))
    ensures MarkContextSent(p, item, target, now).protocol.work == p.protocol.work
  {
    hide WithRoom;
    TouchKeeps(p, item, now);
    var q, k := Touched(p, item, now), KeyOf(p, item);
    AmendKeeps(q, k, Record(q, k).(contextSent := Record(q, k).contextSent + {target}));
  }

  lemma FinishWorkKeeps(p: Producer, target: Id, turn: Option<Id>, request: Option<Id>)
    ensures Keeps(p, FinishAgentWork(p, target, turn, request).state)
  {}

  lemma FinishKeeps(p: Producer, target: Id)
    ensures Keeps(p, FinishTarget(p, target))
  {}

  lemma {:induction false} TrimKeeps(p: Producer, size: Snapshot -> nat)
    ensures Trimmed(p, size).protocol == p.protocol && Keeps(p, Trimmed(p, size))
    decreases BoardSize(p.board)
  {
    if !Publishable(p, size) {
      TrimKeeps(p.(board := DropForBytes(p.board), dropped := p.dropped + 1), size);
    }
  }

  lemma {:induction false} CountKeeps(p: Producer)
    ensures CountBounded(p).protocol == p.protocol && Keeps(p, CountBounded(p))
    decreases BoardSize(p.board)
  {
    if BoardSize(p.board) > BOARD_LIMIT {
      CountKeeps(p.(board := DropForCount(p.board), dropped := p.dropped + 1));
    }
  }

  lemma PostKeeps(p: Producer, board: Board, size: Snapshot -> nat)
    ensures var q := Advanced(p.(board := board)); Keeps(p, Trimmed(CountBounded(q), size))
    ensures var q := Advanced(p.(board := board)); Trimmed(CountBounded(q), size).protocol == p.protocol
  {
    var q := Advanced(p.(board := board));
    CountKeeps(q);
    TrimKeeps(CountBounded(q), size);
  }

  lemma PruneProtocolKeeps(p: Producer, target: Id, size: Snapshot -> nat)
    ensures Keeps(p, Step(p, PruneProtocol(target), size))
  {
    hide Trimmed, CountBounded, Pruned;
    var q := FinishTarget(p, target);
    FinishKeeps(p, target);
    PostKeeps(q, Pruned(q.board, target), size);
  }

  /** Every operation but a reset keeps every uncreditable pair uncreditable. */
  lemma {:induction false} StepKeeps(p: Producer, op: Op, size: Snapshot -> nat)
    requires !op.Reset?
    ensures Keeps(p, Step(p, op, size))
  {
    hide WithRoom, Trimmed, CountBounded, Keeps;
    match op
    case Start(target, turn, request, reading, now) => StartCredits(p, target, turn, request, reading, now);
    case Finish(target, turn, request) => FinishWorkKeeps(p, target, turn, request);
    case Activity(item, activity, now) => ActivityKeeps(p, item, activity, now);
    case Invoke(item, call, now) => InvocationKeeps(p, item, call, now);
    case Consult(item, now) => TouchKeeps(p, item, now);
    case ContextSent(item, target, now) => ContextKeeps(p, item, target, now);
    case Complete(item, target, now) => CompleteKeeps(p, item, target, now);
    case Settle(item, now) => SettleKeeps(p, item, now);
    case Expire(now) => ExpireKeeps(p, p.protocol.correlations.keys, now);
    case Post(event) => PostKeeps(p, Posted(p.board, event), size);
    case Prune(target) =>
      PostKeeps(p, Pruned(p.board, target), size);
      KeepsItself(p);
    case PruneProtocol(target) => PruneProtocolKeeps(p, target, size);
    case Publish => TrimKeeps(p, size);
  }

  // ---------------------------------------------------------------- whole runs

  lemma {:induction false} ResetEmpties(p: Producer, size: Snapshot -> nat)
    ensures var q := Step(p, Reset, size);
            q.epoch == p.epoch + 1 && q.root == p.root && q.protocol == NO_PROTOCOL && !q.incomplete
  {
    TrimKeeps(Producer(p.root, p.epoch + 1, p.revision + 1, 0, false, NO_PROTOCOL, NO_BOARD), size);
    TrimCompleteness(Producer(p.root, p.epoch + 1, p.revision + 1, 0, false, NO_PROTOCOL, NO_BOARD), size);
  }

  lemma {:induction false} TrimCompleteness(p: Producer, size: Snapshot -> nat)
    ensures Trimmed(p, size).incomplete == p.incomplete
    decreases BoardSize(p.board)
  {
    if !Publishable(p, size) {
      TrimCompleteness(p.(board := DropForBytes(p.board), dropped := p.dropped + 1), size);
    }
  }

  lemma {:induction false} StepSpends(p: Producer, op: Op, size: Snapshot -> nat, k: Key, t: Id)
    requires k.epoch <= p.epoch && Spent(p, k, t)
    ensures k.epoch <= Step(p, op, size).epoch && Spent(Step(p, op, size), k, t)
  {
    hide Step, Guarded;
    if op.Reset? {
      ResetEmpties(p, size);
    } else {
      StepKeeps(p, op, size);
    }
  }

  lemma {:induction false} RunSpends(p: Producer, ops: seq<Op>, size: Snapshot -> nat, k: Key, t: Id)
    requires k.epoch <= p.epoch && Spent(p, k, t)
    ensures Spent(Run(p, ops, size), k, t) && k.epoch <= Run(p, ops, size).epoch
    decreases |ops|
  {
    if ops != [] {
      StepSpends(p, ops[0], size, k, t);
      RunSpends(Step(p, ops[0], size), ops[1..], size, k, t);
    }
  }

  /** A credited pair belongs to the current epoch, was still creditable, and is spent afterwards. */
  lemma {:induction false} CreditSpends(p: Producer, op: Op, size: Snapshot -> nat)
    requires Credits(p, op).Some?
    ensures var (k, t) := Credits(p, op).value;
            k.epoch == p.epoch && !Spent(p, k, t) && Spent(Step(p, op, size), k, t)
            && k.epoch <= Step(p, op, size).epoch
  {
    hide Guarded;
    StartCredits(p, op.target, op.turn, op.request, op.reading, op.now);
  }

  /**
   Between two operations of any run that starts with a credit, the same pair of the same epoch is
   never credited again, whatever was evicted, expired or retired in between.
   */
  lemma {:induction false} CreditedAtMostOnce(
    p: Producer, first: Op, between: seq<Op>, second: Op, size: Snapshot -> nat
  )
    requires Credits(p, first).Some?
    ensures Credits(Run(Step(p, first, size), between, size), second) != Credits(p, first)
  {
    hide Step, StartAgentWork, Spent;
    CreditSpends(p, first, size);
    var (k, t) := Credits(p, first).value;
    RunSpends(Step(p, first, size), between, size, k, t);
    var q := Run(Step(p, first, size), between, size);
    if Credits(q, second).Some? {
      CreditSpends(q, second, size);
    }
  }

  /** Once history was lost in an epoch, every record of that epoch created later is uncertain for good. */
  lemma {:induction false} LostHistoryStaysLost(p: Producer, ops: seq<Op>, size: Snapshot -> nat, k: Key)
    requires p.incomplete && k !in p.protocol.correlations.at && k.epoch == p.epoch
    ensures var q := Run(p, ops, size);
            q.epoch == p.epoch && k in q.protocol.correlations.at ==> q.protocol.correlations.at[k].uncertain
  {
    var q := Run(p, ops, size);
    if q.epoch == p.epoch && k in q.protocol.correlations.at {
      var c := q.protocol.correlations.at[k];
      var t := Unused(c.started);
      RunSpends(p, ops, size, k, t);
    }
  }

  /** The request an agent's running work is attributed to. */
  function Attribution(p: Producer, t: Id): Option<Id> {
    if t in p.protocol.work then p.protocol.work[t].request else None
  }

  lemma {:induction false} AssignAttributes(p: Producer, target: Id, turn: Option<Id>, request: Option<Id>, t: Id)
    ensures var s := Assigned(p, target, turn, request);
            Attribution(s.state, t) in {Attribution(p, t), None}
            || (t == target && s.credited == request && request == Attribution(s.state, t))
  {}

  lemma {:induction false} StartAttributes(
    p: Producer, target: Id, turn: Option<Id>, request: Option<Id>, reading: Option<Id>, now: int, t: Id
  )
    ensures var s := StartAgentWork(p, target, turn, request, reading, now);
            Attribution(s.state, t) in {Attribution(p, t), None}
            || (t == target && s.credited == request && request == Attribution(s.state, t))
  {
    hide WithRoom, Touched, Assigned;
    if request.None? {
      AssignAttributes(p, target, turn, None, t);
    } else {
      TouchKeeps(p, request.value, now);
      var q, k := Touched(p, request.value, now), KeyOf(p, request.value);
      var r := Indexed(q, k, target);
      var c := Record(r, k);
      AssignAttributes(Amended(r, k, c.(started := c.started + {target})), target, turn, request, t);
      AssignAttributes(r, target, reading, None, t);
    }
  }

  /** No operation attributes running work to a new request except by crediting that very pair. */
  lemma {:induction false} AttributionNeedsCredit(p: Producer, op: Op, size: Snapshot -> nat, t: Id)
    ensures var q := Step(p, op, size);
            Attribution(q, t) == Attribution(p, t) || Attribution(q, t).None?
            || Credits(p, op) == Some((KeyOf(p, Attribution(q, t).value), t))
  {
    hide WithRoom, Trimmed, CountBounded, Keeps, Touched, Pruned, StartAgentWork, RememberActivity, RememberInvocation,
      MarkContextSent, CompleteActivity, SettleCorrelation, ExpiredFrom, Posted;
    match op
    case Start(target, turn, request, reading, now) => StartAttributes(p, target, turn, request, reading, now, t);
    case Finish(target, turn, request) =>
    case Activity(item, activity, now) => ActivityKeeps(p, item, activity, now);
    case Invoke(item, call, now) => InvocationKeeps(p, item, call, now);
    case Consult(item, now) => TouchKeeps(p, item, now);
    case ContextSent(item, target, now) => ContextKeeps(p, item, target, now);
    case Complete(item, target, now) => CompleteKeeps(p, item, target, now);
    case Settle(item, now) => SettleKeeps(p, item, now);
    case Expire(now) => ExpireKeeps(p, p.protocol.correlations.keys, now);
    case Post(event) => PostKeeps(p, Posted(p.board, event), size);
    case Prune(target) => PostKeeps(p, Pruned(p.board, target), size);
    case PruneProtocol(target) =>
      var q := FinishTarget(p, target);
      PostKeeps(q, Pruned(q.board, target), size);
    case Publish => TrimKeeps(p, size);
    case Reset => ResetEmpties(p, size);
  }
}
