/**
 Snapshots in flight: the producer's published labels, and a consumer that may miss, repeat or
 reorder them and still mirrors exactly what was published under its own label.
 */
module ObserverStream {
  import opened Wrappers
  import opened OrderedDict
  import opened Observer
  import opened ObserverBounds

  // ---------------------------------------------------------------- the consumer

  datatype Consumer = Consumer(
    epoch: int, revision: int, active: Dict<EventKey, Event>, tombstones: Dict<EventKey, Event>, removed: seq<Id>,
    dropped: int)

  const FRESH := Consumer(-1, -1, Empty(), Empty(), [], 0)

  /** Refile listed events under their keys; refused when one lacks the schema. */
  function Collected(d: Dict<EventKey, Event>, events: seq<Event>): Option<Dict<EventKey, Event>>
    decreases |events|
  {
    if events == [] then Some(d)
    else if !events[0].schema then None
    else Collected(Put(d, StateKey(events[0]), events[0]), events[1..])
  }

  /** The non-empty targets, each once, in order of first mention. */
  function Targets(seen: seq<Id>, removed: seq<Id>): seq<Id>
    decreases |removed|
  {
    if removed == [] then seen
    else Targets(if removed[0] == "" || removed[0] in seen then seen else seen + [removed[0]], removed[1..])
  }

  function Parsed(s: Snapshot): Option<Consumer> {
    if !s.schema || s.epoch < 0 || s.revision < 0 || s.dropped < 0 || s.complete != (s.dropped == 0) then None
    else
      var active, tombstones := Collected(Empty(), s.events), Collected(Empty(), s.tombstones);
      if active.None? || tombstones.None? then None
      else if |active.value.keys| + |tombstones.value.keys| + |s.removed| > BOARD_LIMIT then None
      else Some(Consumer(s.epoch, s.revision, active.value, tombstones.value, Targets([], s.removed), s.dropped))
  }

  /** The label (e, r) is strictly before (f, s). */
  predicate Before(e: int, r: int, f: int, s: int) {
    e < f || (e == f && r < s)
  }

  predicate Accepts(c: Consumer, n: Consumer) {
    Before(c.epoch, c.revision, n.epoch, n.revision) && (n.epoch == c.epoch ==> n.dropped >= c.dropped)
  }

  function Consumed(c: Consumer, s: Snapshot): Consumer {
    if Parsed(s).Some? && Accepts(c, Parsed(s).value) then Parsed(s).value else c
  }

  function ConsumedAll(c: Consumer, ss: seq<Snapshot>): Consumer
    decreases |ss|
  {
    if ss == [] then c else ConsumedAll(Consumed(c, ss[0]), ss[1..])
  }

  // ---------------------------------------------------------------- what the producer publishes

  predicate Emits(op: Op) {
    op.Post? || op.Publish? || op.Reset? || ((op.Prune? || op.PruneProtocol?) && op.target != "")
  }

  ghost function Published(p: Producer, ops: seq<Op>, size: Snapshot -> nat): set<Snapshot>
    decreases |ops|
  {
    if ops == [] then {}
    else
      var q := Step(p, ops[0], size);
      (if Emits(ops[0]) then {SnapshotValue(q)} else {}) + Published(q, ops[1..], size)
  }

  /** A snapshot some earlier or the current state of this producer published. */
  ghost predicate Past(s: Snapshot, p: Producer, size: Snapshot -> nat) {
    && 0 <= s.epoch <= p.epoch && 0 <= s.revision
    && (s.epoch == p.epoch ==> s.revision <= p.revision && s.dropped <= p.dropped)
    && (s.epoch == p.epoch && s.revision == p.revision ==> s == SnapshotValue(p) && Publishable(p, size))
  }

  /** Two snapshots of one producer: a label names one snapshot, and losses only grow within an epoch. */
  predicate Agree(s: Snapshot, u: Snapshot) {
    s.epoch == u.epoch ==> (s.revision == u.revision ==> s == u) && (s.revision < u.revision ==> s.dropped <= u.dropped)
  }

  /** Fit for the wire: consistent loss flag, within the event limit, refiled exactly as published. */
  ghost predicate Wire(s: Snapshot) {
    && s.schema && s.epoch >= 0 && s.revision >= 0 && s.dropped >= 0 && s.complete == (s.dropped == 0)
    && |s.events| + |s.tombstones| + |s.removed| <= BOARD_LIMIT
    && Targets([], s.removed) == s.removed
    && (Parsed(s).Some? <==> AllSchema(s.events) && AllSchema(s.tombstones))
    && (Parsed(s).Some? ==>
          && ListValues(Parsed(s).value.active) == s.events && Filed(Parsed(s).value.active)
          && ListValues(Parsed(s).value.tombstones) == s.tombstones && Filed(Parsed(s).value.tombstones)
          && Parsed(s).value.removed == s.removed)
  }

  predicate AllSchema(events: seq<Event>) {
    forall i :: 0 <= i < |events| ==> events[i].schema
  }

  ghost predicate Genuine(log: set<Snapshot>) {
    && (forall s, u :: s in log && u in log ==> Agree(s, u))
    && (forall s :: s in log ==> Wire(s))
  }

  ghost predicate LogOk(p: Producer, log: set<Snapshot>, size: Snapshot -> nat) {
    Genuine(log) && forall s :: s in log ==> Past(s, p, size)
  }

  // ---------------------------------------------------------------- round trip of a board

  lemma {:induction false} CollectedRefuses(d: Dict<EventKey, Event>, events: seq<Event>)
    ensures Collected(d, events).Some? <==> AllSchema(events)
    decreases |events|
  {
    if events != [] && events[0].schema {
      CollectedRefuses(Put(d, StateKey(events[0]), events[0]), events[1..]);
      assert forall i :: 0 <= i < |events| - 1 ==> events[1..][i] == events[i + 1];
      assert AllSchema(events[1..]) ==> AllSchema(events);
    }
  }

  function Restrict(keys: seq<EventKey>, at: map<EventKey, Event>): map<EventKey, Event> {
    map k | k in keys && k in at :: at[k]
  }

  lemma RestrictCons(acc: map<EventKey, Event>, k: EventKey, keys: seq<EventKey>, at: map<EventKey, Event>)
    requires k in at && k !in keys
    ensures acc[k := at[k]] + Restrict(keys, at) == acc + Restrict([k] + keys, at)
  {}

  lemma RestrictAll(d: Dict<EventKey, Event>)
    requires Valid(d)
    ensures map[] + Restrict(d.keys, d.at) == d.at
  {}

  /** Each listed key names an event of its own that carries the schema. */
  predicate Sound(keys: seq<EventKey>, at: map<EventKey, Event>) {
    forall k :: k in keys ==> k in at && StateKey(at[k]) == k && at[k].schema
  }

  lemma {:induction false} CollectedAppends(acc: Dict<EventKey, Event>, keys: seq<EventKey>, at: map<EventKey, Event>)
    requires Distinct(keys) && Sound(keys, at) && forall k :: k in keys ==> k !in acc.at
    ensures Collected(acc, Values(keys, at)) == Some(Dict(acc.keys + keys, acc.at + Restrict(keys, at)))
    decreases |keys|
  {
    hide StateKey, Restrict, Collected, Values, Distinct;
    if keys == [] {
      CollectedNothing(acc);
      assert acc.keys + keys == acc.keys;
      assert Values(keys, at) == [];
      RestrictNothing(acc.at, at);
    } else {
      var k, rest := keys[0], keys[1..];
      var next := Put(acc, k, at[k]);
      FirstApart(keys);
      CollectedAppends(next, rest, at);
      CollectedFirst(acc, keys, at);
      PutFirst(acc, keys, at);
    }
  }

  /** Filing the first listed event and then the others. */
  lemma CollectedFirst(acc: Dict<EventKey, Event>, keys: seq<EventKey>, at: map<EventKey, Event>)
    requires keys != [] && Sound(keys, at)
    ensures Collected(acc, Values(keys, at)) == Collected(Put(acc, keys[0], at[keys[0]]), Values(keys[1..], at))
  {
    hide StateKey, Collected, Values, Put;
    var k, rest := keys[0], keys[1..];
    assert keys == [k] + rest;
    ValuesCons(k, rest, at);
    CollectedCons(acc, at[k], Values(rest, at));
  }

  lemma PutFirst(acc: Dict<EventKey, Event>, keys: seq<EventKey>, at: map<EventKey, Event>)
    requires keys != [] && keys[0] !in keys[1..] && keys[0] in at && keys[0] !in acc.at
    ensures var next := Put(acc, keys[0], at[keys[0]]);
            && next.keys + keys[1..] == acc.keys + keys
            && next.at + Restrict(keys[1..], at) == acc.at + Restrict(keys, at)
  {
    hide Restrict;
    var k, rest := keys[0], keys[1..];
    assert keys == [k] + rest;
    RestrictCons(acc.at, k, rest, at);
    assert acc.keys + [k] + rest == acc.keys + keys;
  }

  lemma CollectedNothing(acc: Dict<EventKey, Event>)
    ensures Collected(acc, []) == Some(acc)
  {}

  lemma FirstApart(keys: seq<EventKey>)
    requires Distinct(keys) && keys != []
    ensures keys[0] in keys && keys[0] !in keys[1..] && Distinct(keys[1..])
  {}

  lemma RestrictNothing(acc: map<EventKey, Event>, at: map<EventKey, Event>)
    ensures acc + Restrict([], at) == acc
  {}

  lemma ValuesCons(k: EventKey, keys: seq<EventKey>, at: map<EventKey, Event>)
    requires k in at && forall j :: j in keys ==> j in at
    ensures Values([k] + keys, at) == [at[k]] + Values(keys, at)
  {
    assert ([k] + keys)[1..] == keys;
  }

  lemma CollectedCons(d: Dict<EventKey, Event>, e: Event, events: seq<Event>)
    requires e.schema
    ensures Collected(d, [e] + events) == Collected(Put(d, StateKey(e), e), events)
  {
    assert ([e] + events)[1..] == events;
  }

  lemma ListedSchema(d: Dict<EventKey, Event>)
    requires Filed(d) && AllSchema(ListValues(d))
    ensures Sound(d.keys, d.at)
  {
    hide StateKey;
    forall k | k in d.keys ensures d.at[k].schema {
      var i :| 0 <= i < |d.keys| && d.keys[i] == k;
      assert ListValues(d)[i].schema;
    }
  }

  /** Refiling the listed values of a filed dictionary gives the dictionary back. */
  lemma {:induction false} CollectedRoundTrip(d: Dict<EventKey, Event>)
    requires Filed(d) && AllSchema(ListValues(d))
    ensures Collected(Empty(), ListValues(d)) == Some(d)
  {
    hide StateKey, Restrict, Collected, AllSchema;
    ListedSchema(d);
    CollectedAppends(Empty(), d.keys, d.at);
    RestrictAll(d);
    assert [] + d.keys == d.keys;
  }

  lemma {:induction false} TargetsAppend(seen: seq<Id>, removed: seq<Id>)
    requires Distinct(removed) && "" !in removed && forall t :: t in removed ==> t !in seen
    ensures Targets(seen, removed) == seen + removed
    decreases |removed|
  {
    if removed != [] {
      assert removed[0] in removed && removed[0] !in removed[1..];
      TargetsAppend(seen + [removed[0]], removed[1..]);
      assert seen + [removed[0]] + removed[1..] == seen + removed;
    }
  }

  /** Every consistent producer's snapshot is fit for the wire. */
  lemma {:induction false} SnapshotIsWire(p: Producer)
    requires Consistent(p)
    ensures Wire(SnapshotValue(p))
  {
    hide Linked, Limits, AgentsOk, StateKey;
    var s := SnapshotValue(p);
    TargetsAppend([], s.removed);
    assert [] + s.removed == s.removed;
    CollectedRefuses(Empty(), s.events);
    CollectedRefuses(Empty(), s.tombstones);
    if AllSchema(s.events) && AllSchema(s.tombstones) {
      CollectedRoundTrip(p.board.active);
      CollectedRoundTrip(p.board.tombstones);
      assert Parsed(s).value.active == p.board.active;
    }
  }

  // ---------------------------------------------------------------- labels over a run

  /** Only the loss counter moved, and the revision with it. */
  predicate Ticks(p: Producer, q: Producer) {
    && q.epoch == p.epoch && q.board == p.board
    && q.revision >= p.revision && q.revision - p.revision == q.dropped - p.dropped
  }

  lemma {:induction false} RoomTicks(p: Producer)
    ensures Ticks(p, WithRoom(p))
    decreases |p.protocol.correlations.keys|
  {
    if |p.protocol.correlations.keys| >= CORRELATION_LIMIT {
      RoomTicks(Evicted(p, p.protocol.correlations.keys[0]));
    }
  }

  lemma TouchTicks(p: Producer, item: Id, now: int)
    ensures Ticks(p, Touched(p, item, now))
  {
    RoomTicks(p);
  }

  lemma {:induction false} IndexAllTicks(p: Producer, k: Key, targets: seq<Id>)
    ensures Ticks(p, IndexedAll(p, k, targets))
    decreases |targets|
  {
    if targets != [] {
      IndexAllTicks(Indexed(p, k, targets[0]), k, targets[1..]);
    }
  }

  lemma {:induction false} PayloadsTick(p: Producer)
    ensures Ticks(p, PayloadsBounded(p))
    decreases |p.protocol.payloads.keys|
  {
    if !PayloadsFit(p.protocol.payloads) && p.protocol.payloads.keys != [] {
      PayloadsTick(PayloadRetired(p, p.protocol.payloads.keys[0]));
    }
  }

  lemma {:induction false} ExpireTicks(p: Producer, keys: seq<Key>, now: int)
    ensures Ticks(p, ExpiredFrom(p, keys, now))
    decreases |keys|
  {
    if keys != [] {
      var due := keys[0] in p.protocol.correlations.at && p.protocol.correlations.at[keys[0]].expires <= now;
      ExpireTicks(if due then Evicted(p, keys[0]) else p, keys[1..], now);
    }
  }

  lemma RememberTicks(p: Producer, target: Id, path: Option<string>)
    ensures Ticks(p, Remembered(p, target, path).state)
  {}

  lemma StartTicks(p: Producer, target: Id, turn: Option<Id>, request: Option<Id>, reading: Option<Id>, now: int)
    ensures Ticks(p, StartAgentWork(p, target, turn, request, reading, now).state)
  {
    hide Touched, Remembered;
    if request.None? {
      RememberTicks(p, target, None);
    } else {
      TouchTicks(p, request.value, now);
      var q, k := Touched(p, request.value, now), KeyOf(p, request.value);
      var r := Indexed(q, k, target);
      RememberTicks(r, target, None);
      var c := Record(r, k);
      RememberTicks(Amended(r, k, c.(started := c.started + {target})), target, None);
    }
  }

  lemma ActivityTicks(p: Producer, item: Id, e: Observer.Activity, now: int)
    ensures Ticks(p, RememberActivity(p, item, e, now).state)
  {
    hide Touched, Remembered;
    TouchTicks(p, item, now);
    RememberTicks(Touched(p, item, now), e.agent, Some(e.path));
  }

  lemma InvocationTicks(p: Producer, item: Id, call: Invocation, now: int)
    ensures Ticks(p, RememberInvocation(p, item, call, now).state)
  {
    hide Touched, IndexedAll, PayloadsBounded;
    TouchTicks(p, item, now);
    var q, k := Touched(p, item, now), KeyOf(p, item);
    var m := Amended(q, k, Record(q, k).(phases := Record(q, k).phases + {call.phase}));
    IndexAllTicks(m, k, call.receivers);
    var r := IndexedAll(m, k, call.receivers);
    PayloadsTick(r.(protocol := r.protocol.(payloads := Put(r.protocol.payloads, k, call))));
  }

  lemma CompleteTicks(p: Producer, item: Id, target: Id, now: int)
    ensures Ticks(p, CompleteActivity(p, item, target, now))
  {
    hide Touched;
    TouchTicks(p, item, now);
    var q, k := Touched(p, item, now), KeyOf(p, item);
    TouchTicks(Amended(q, k, Record(q, k).(completed := Record(q, k).completed + {target})), item, now);
  }

  /** An operation publishes under a later label, or leaves what was publishable as it was. */
  predicate Moves(p: Producer, q: Producer, size: Snapshot -> nat) {
    || q.epoch > p.epoch
    || (&& q.epoch == p.epoch && q.revision >= p.revision && q.dropped >= p.dropped
        && (q.revision == p.revision && Publishable(p, size) ==> q.board == p.board && q.dropped == p.dropped))
  }

  lemma {:induction false} TrimMoves(p: Producer, size: Snapshot -> nat)
    ensures var q := Trimmed(p, size);
            && q.epoch == p.epoch && q.revision == p.revision && q.dropped >= p.dropped && Publishable(q, size)
            && (Publishable(p, size) ==> q == p)
    decreases BoardSize(p.board)
  {
    hide Publishable;
    if !Publishable(p, size) {
      EmptyIsPublishable(p, size);
      TrimMoves(p.(board := DropForBytes(p.board), dropped := p.dropped + 1), size);
    }
  }

  lemma EmptyIsPublishable(p: Producer, size: Snapshot -> nat)
    requires !Publishable(p, size)
    ensures BoardSize(DropForBytes(p.board)) < BoardSize(p.board)
  {}

  lemma {:induction false} CountMoves(p: Producer)
    ensures var q := CountBounded(p); q.epoch == p.epoch && q.revision == p.revision && q.dropped >= p.dropped
    decreases BoardSize(p.board)
  {
    if BoardSize(p.board) > BOARD_LIMIT {
      CountMoves(p.(board := DropForCount(p.board), dropped := p.dropped + 1));
    }
  }

  lemma PostMoves(p: Producer, board: Board, size: Snapshot -> nat)
    ensures var q := Trimmed(CountBounded(Advanced(p.(board := board))), size);
            q.epoch == p.epoch && q.revision == p.revision + 1 && q.dropped >= p.dropped && Publishable(q, size)
  {
    hide Publishable, CountBounded, Trimmed;
    var m := Advanced(p.(board := board));
    CountMoves(m);
    TrimMoves(CountBounded(m), size);
  }

  lemma ResetMoves(p: Producer, size: Snapshot -> nat)
    ensures Step(p, Reset, size).epoch == p.epoch + 1 && Publishable(Step(p, Reset, size), size)
  {
    hide Publishable, Trimmed;
    TrimMoves(Producer(p.root, p.epoch + 1, p.revision + 1, 0, false, NO_PROTOCOL, NO_BOARD), size);
  }

  lemma {:induction false} StepMoves(p: Producer, op: Op, size: Snapshot -> nat)
    ensures Moves(p, Step(p, op, size), size)
    ensures Emits(op) ==> Publishable(Step(p, op, size), size)
  {
    hide Publishable, Touched, StartAgentWork, RememberActivity, RememberInvocation, CompleteActivity, ExpiredFrom,
      Trimmed, CountBounded, Posted, Pruned, FinishedIn;
    match op
    case Start(target, turn, request, reading, now) => StartTicks(p, target, turn, request, reading, now);
    case Finish(target, turn, request) =>
    case Activity(item, activity, now) => ActivityTicks(p, item, activity, now);
    case Invoke(item, call, now) => InvocationTicks(p, item, call, now);
    case Consult(item, now) => TouchTicks(p, item, now);
    case ContextSent(item, target, now) => TouchTicks(p, item, now);
    case Complete(item, target, now) => CompleteTicks(p, item, target, now);
    case Settle(item, now) => TouchTicks(p, item, now);
    case Expire(now) => ExpireTicks(p, p.protocol.correlations.keys, now);
    case Post(event) => PostMoves(p, Posted(p.board, event), size);
    case Prune(target) => PostMoves(p, Pruned(p.board, target), size);
    case PruneProtocol(target) =>
      FinishTicks(p, target);
      PostMoves(FinishTarget(p, target), Pruned(FinishTarget(p, target).board, target), size);
    case Publish => TrimMoves(p, size);
    case Reset => ResetMoves(p, size);
  }

  lemma FinishTicks(p: Producer, target: Id)
    ensures Ticks(p, FinishTarget(p, target))
  {}

  lemma SameBoardSameSnapshot(p: Producer, q: Producer, size: Snapshot -> nat)
    requires q.epoch == p.epoch && q.revision == p.revision && q.board == p.board && q.dropped == p.dropped
    ensures SnapshotValue(q) == SnapshotValue(p) && Publishable(q, size) == Publishable(p, size)
  {}

  lemma {:induction false} PastStaysPast(s: Snapshot, p: Producer, q: Producer, size: Snapshot -> nat)
    requires Past(s, p, size) && Moves(p, q, size)
    ensures Past(s, q, size)
  {
    hide Publishable, SnapshotValue;
    if s.epoch == q.epoch && s.revision == q.revision {
      SameBoardSameSnapshot(p, q, size);
    }
  }

  lemma SnapshotIsPast(p: Producer, size: Snapshot -> nat)
    requires Publishable(p, size)
    ensures Past(SnapshotValue(p), p, size)
  {}

  /** One operation keeps the log of everything published so far genuine. */
  lemma {:induction false} StepLogged(p: Producer, op: Op, log: set<Snapshot>, size: Snapshot -> nat)
    requires Consistent(p) && LogOk(p, log, size)
    ensures var q := Step(p, op, size);
            Consistent(q) && LogOk(q, if Emits(op) then log + {SnapshotValue(q)} else log, size)
  {
    hide Consistent, Step, Past, SnapshotValue, Publishable, Wire, Moves;
    var q := Step(p, op, size);
    StepConsistent(p, op, size);
    StepMoves(p, op, size);
    forall s | s in log ensures Past(s, q, size) {
      PastStaysPast(s, p, q, size);
    }
    if Emits(op) {
      SnapshotIsWire(q);
      SnapshotIsPast(q, size);
      forall s | s in log ensures Agree(s, SnapshotValue(q)) && Agree(SnapshotValue(q), s) {
        PastAgrees(s, q, size);
      }
    }
  }

  lemma PastAgrees(s: Snapshot, p: Producer, size: Snapshot -> nat)
    requires Past(s, p, size)
    ensures Agree(s, SnapshotValue(p)) && Agree(SnapshotValue(p), s)
  {}

  /** Over any run, each (epoch, revision) label names one snapshot and losses only grow within an epoch. */
  lemma {:induction false} RunLogged(p: Producer, ops: seq<Op>, log: set<Snapshot>, size: Snapshot -> nat)
    requires Consistent(p) && LogOk(p, log, size)
    ensures LogOk(Run(p, ops, size), log + Published(p, ops, size), size)
    decreases |ops|
  {
    hide Consistent, Step, LogOk, SnapshotValue;
    if ops == [] {
      assert log + {} == log;
    } else {
      var q := Step(p, ops[0], size);
      var more := if Emits(ops[0]) then log + {SnapshotValue(q)} else log;
      StepLogged(p, ops[0], log, size);
      RunLogged(q, ops[1..], more, size);
      assert more + Published(q, ops[1..], size) == log + Published(p, ops, size);
    }
  }

  /** Everything a fresh producer ever publishes is genuine. */
  lemma {:induction false} PublishedIsGenuine(root: Id, ops: seq<Op>, size: Snapshot -> nat)
    ensures Genuine(Published(Initial(root), ops, size))
  {
    hide Consistent, Published, Step, Run, Wire;
    InitialConsistent(root, 0, 0);
    RunLogged(Initial(root), ops, {}, size);
    assert {} + Published(Initial(root), ops, size) == Published(Initial(root), ops, size);
  }

  // ---------------------------------------------------------------- the consumer of a genuine log

  /** The consumer holds nothing yet, or exactly what was published under its own label. */
  ghost predicate Mirrors(c: Consumer, log: set<Snapshot>) {
    c == FRESH || exists s :: s in log && Parsed(s) == Some(c)
  }

  predicate NotAfter(s: Snapshot, c: Consumer) {
    !Before(c.epoch, c.revision, s.epoch, s.revision)
  }

  /** A genuine snapshot with a later label is accepted whenever it parses: the loss test never refuses it. */
  lemma {:induction false} NewerIsAccepted(c: Consumer, s: Snapshot, log: set<Snapshot>)
    requires Genuine(log) && Mirrors(c, log) && s in log
    ensures Before(c.epoch, c.revision, s.epoch, s.revision) && Parsed(s).Some? ==> Parsed(s) == Some(Consumed(c, s))
    ensures Before(c.epoch, c.revision, s.epoch, s.revision)
      ==> (Consumed(c, s) == c <==> !(AllSchema(s.events) && AllSchema(s.tombstones)))
  {
    hide Collected, Targets;
    assert Wire(s);
    if c != FRESH {
      var u :| u in log && Parsed(u) == Some(c);
      assert Agree(u, s);
    }
  }

  /** Each delivery leaves a mirror, never moves the label back, and afterwards is not after it if it parses. */
  lemma {:induction false} ConsumedMirrors(c: Consumer, s: Snapshot, log: set<Snapshot>)
    requires Genuine(log) && Mirrors(c, log) && s in log
    ensures var d := Consumed(c, s);
            && Mirrors(d, log) && !Before(d.epoch, d.revision, c.epoch, c.revision)
            && (Parsed(s).Some? ==> NotAfter(s, d))
            && (d == c || Parsed(s) == Some(d))
  {
    hide Genuine;
    NewerIsAccepted(c, s, log);
  }

  /**
   For any loss, repetition or reordering of genuine snapshots: the consumer mirrors one published
   snapshot, its label never goes back, and nothing delivered that parses is newer than it.
   */
  lemma {:induction false} ConsumedAllMirrors(c: Consumer, ss: seq<Snapshot>, log: set<Snapshot>)
    requires Genuine(log) && Mirrors(c, log) && forall s :: s in ss ==> s in log
    ensures var d := ConsumedAll(c, ss);
            && Mirrors(d, log) && !Before(d.epoch, d.revision, c.epoch, c.revision)
            && (forall s :: s in ss && Parsed(s).Some? ==> NotAfter(s, d))
            && (d == c || exists s :: s in ss && Parsed(s) == Some(d))
    decreases |ss|
  {
    hide Genuine, Mirrors, Consumed, Parsed;
    if ss != [] {
      var n := Consumed(c, ss[0]);
      assert ss[0] in ss;
      ConsumedMirrors(c, ss[0], log);
      assert forall s :: s in ss[1..] ==> s in ss;
      ConsumedAllMirrors(n, ss[1..], log);
      assert forall s :: s in ss ==> s == ss[0] || s in ss[1..];
    }
  }

  /** A mirror is determined by its label. */
  lemma {:induction false} MirrorsUnique(c: Consumer, d: Consumer, log: set<Snapshot>)
    requires Genuine(log) && Mirrors(c, log) && Mirrors(d, log) && c.epoch == d.epoch && c.revision == d.revision
    ensures c == d
  {
    hide Collected, Targets, Wire;
    if c != FRESH && d != FRESH {
      var s :| s in log && Parsed(s) == Some(c);
      var u :| u in log && Parsed(u) == Some(d);
      assert Agree(s, u);
    }
  }

  /**
   Any two ways to deliver the same snapshots -- other order, other multiplicities -- end in the same
   state.
   */
  lemma {:induction false} DeliveryOrderIrrelevant(
    c: Consumer, ss: seq<Snapshot>, us: seq<Snapshot>, log: set<Snapshot>
  )
    requires Genuine(log) && Mirrors(c, log)
    requires forall s :: s in ss ==> s in log
    requires forall s :: s in ss <==> s in us
    ensures ConsumedAll(c, ss) == ConsumedAll(c, us)
  {
    hide Genuine, Mirrors, ConsumedAll;
    ConsumedAllMirrors(c, ss, log);
    ConsumedAllMirrors(c, us, log);
    NoLater(c, ss, us, log);
    NoLater(c, us, ss, log);
    MirrorsUnique(ConsumedAll(c, ss), ConsumedAll(c, us), log);
  }

  lemma NoLater(c: Consumer, ss: seq<Snapshot>, us: seq<Snapshot>, log: set<Snapshot>)
    requires Genuine(log) && Mirrors(c, log)
    requires forall s :: s in us ==> s in log
    requires forall s :: s in ss ==> s in us
    ensures var d, e := ConsumedAll(c, ss), ConsumedAll(c, us); !Before(e.epoch, e.revision, d.epoch, d.revision)
  {
    hide Genuine, Mirrors, ConsumedAll, Parsed;
    ConsumedAllMirrors(c, ss, log);
    ConsumedAllMirrors(c, us, log);
    var d, e := ConsumedAll(c, ss), ConsumedAll(c, us);
    if d != c {
      var s :| s in ss && Parsed(s) == Some(d);
      ParsedLabel(s);
      assert NotAfter(s, e);
    }
  }

  lemma ParsedLabel(s: Snapshot)
    ensures Parsed(s).Some? ==> Parsed(s).value.epoch == s.epoch && Parsed(s).value.revision == s.revision
  {}

  /** The first snapshot of the batch with the largest label. */
  function Newest(best: Snapshot, batch: seq<Snapshot>): (n: Snapshot)
    ensures n == best || n in batch
    ensures !Before(n.epoch, n.revision, best.epoch, best.revision)
    ensures forall s :: s in batch ==> !Before(n.epoch, n.revision, s.epoch, s.revision)
    decreases |batch|
  {
    if batch == [] then best
    else Newest(if Before(best.epoch, best.revision, batch[0].epoch, batch[0].revision) then batch[0] else best,
                batch[1..])
  }

  /** Every listed event carries the observer schema: what a consumer tests before anything else. */
  predicate Schemed(s: Snapshot) {
    AllSchema(s.events) && AllSchema(s.tombstones)
  }

  /**
   Consuming only the newest snapshot of a genuine batch ends where consuming all of them in order
   ends, exactly when the newest one carries the schema throughout or no snapshot of the batch that
   does is newer than what the consumer already has.
   */
  lemma {:induction false} NewestOfBatch(c: Consumer, batch: seq<Snapshot>, log: set<Snapshot>)
    requires Genuine(log) && Mirrors(c, log) && batch != [] && forall s :: s in batch ==> s in log
    ensures var n := Newest(batch[0], batch[1..]);
            Consumed(c, n) == ConsumedAll(c, batch)
            <==> Schemed(n) || forall s :: s in batch && Schemed(s) ==> NotAfter(s, c)
  {
    hide Genuine, Mirrors, ConsumedAll, Parsed, Newest, Schemed, Consumed;
    var n := Newest(batch[0], batch[1..]);
    assert forall s :: s in batch ==> s == batch[0] || s in batch[1..];
    assert n in batch;
    ParsesIffSchemed(batch, log);
    if Schemed(n) {
      ConsumedMirrors(c, n, log);
      ConsumedAllMirrors(c, batch, log);
      NewestLabel(c, batch, n, log);
      MirrorsUnique(Consumed(c, n), ConsumedAll(c, batch), log);
    } else {
      UnparsedKeeps(c, n);
      UnchangedIff(c, batch, log);
    }
  }

  lemma ParsesIffSchemed(batch: seq<Snapshot>, log: set<Snapshot>)
    requires Genuine(log) && forall s :: s in batch ==> s in log
    ensures forall s :: s in batch ==> (Parsed(s).Some? <==> Schemed(s))
  {
    hide Parsed, AllSchema;
    forall s | s in batch ensures Parsed(s).Some? <==> Schemed(s) {
      assert Wire(s);
    }
  }

  lemma UnparsedKeeps(c: Consumer, s: Snapshot)
    requires Parsed(s).None?
    ensures Consumed(c, s) == c
  {}

  /** A genuine batch leaves the consumer as it was exactly when nothing in it that parses is newer. */
  lemma {:induction false} UnchangedIff(c: Consumer, batch: seq<Snapshot>, log: set<Snapshot>)
    requires Genuine(log) && Mirrors(c, log) && forall s :: s in batch ==> s in log
    ensures ConsumedAll(c, batch) == c <==> forall s :: s in batch && Parsed(s).Some? ==> NotAfter(s, c)
  {
    hide Genuine, Mirrors, ConsumedAll, Parsed;
    ConsumedAllMirrors(c, batch, log);
    var d := ConsumedAll(c, batch);
    if d != c && forall s :: s in batch && Parsed(s).Some? ==> NotAfter(s, c) {
      var s :| s in batch && Parsed(s) == Some(d);
      ParsedLabel(s);
      MirrorsUnique(c, d, log);
    }
  }

  lemma NewestLabel(c: Consumer, batch: seq<Snapshot>, n: Snapshot, log: set<Snapshot>)
    requires Genuine(log) && Mirrors(c, log) && n in batch && Parsed(n).Some?
    requires forall s :: s in batch ==> s in log && !Before(n.epoch, n.revision, s.epoch, s.revision)
    ensures var d, e := Consumed(c, n), ConsumedAll(c, batch); d.epoch == e.epoch && d.revision == e.revision
  {
    hide Genuine, Mirrors, ConsumedAll, Parsed, Consumed;
    var d, e := Consumed(c, n), ConsumedAll(c, batch);
    ConsumedMirrors(c, n, log);
    ConsumedAllMirrors(c, batch, log);
    ParsedLabel(n);
    assert NotAfter(n, d) && NotAfter(n, e);
    if e != c {
      var s :| s in batch && Parsed(s) == Some(e);
      ParsedLabel(s);
    }
  }
}
