/**
 The observer schema over runs: a producer that is only given events carrying it publishes nothing
 else, and then no genuine newer snapshot is refused. The producer itself does not test for it.
 */
module ObserverSchema {
  import opened Wrappers
  import opened OrderedDict
  import opened Observer
  import opened ObserverBounds
  import opened ObserverStream

  predicate DictSchemed(d: Dict<EventKey, Event>) {
    forall k :: k in d.at ==> d.at[k].schema
  }

  predicate BoardSchemed(b: Board) {
    DictSchemed(b.active) && DictSchemed(b.tombstones)
  }

  /** The caller's side: every observed event carries the schema. */
  predicate Careful(op: Op) {
    op.Post? ==> op.event.schema
  }

  lemma {:induction false} PrunedSchemed(d: Dict<EventKey, Event>, keys: seq<EventKey>, target: Id)
    requires DictSchemed(d)
    ensures DictSchemed(PrunedFrom(d, keys, target))
    decreases |keys|
  {
    hide Mentions, Receivers;
    if keys != [] {
      PrunedSchemed(PrunedAt(d, keys[0], target), keys[1..], target);
    }
  }

  lemma {:induction false} CountSchemed(p: Producer)
    requires BoardSchemed(p.board)
    ensures BoardSchemed(CountBounded(p).board)
    decreases BoardSize(p.board)
  {
    if BoardSize(p.board) > BOARD_LIMIT {
      CountSchemed(p.(board := DropForCount(p.board), dropped := p.dropped + 1));
    }
  }

  lemma {:induction false} TrimSchemed(p: Producer, size: Snapshot -> nat)
    requires BoardSchemed(p.board)
    ensures BoardSchemed(Trimmed(p, size).board)
    decreases BoardSize(p.board)
  {
    hide SnapshotValue;
    if !Publishable(p, size) {
      TrimSchemed(p.(board := DropForBytes(p.board), dropped := p.dropped + 1), size);
    }
  }

  lemma PublishSchemed(p: Producer, board: Board, size: Snapshot -> nat)
    requires BoardSchemed(board)
    ensures BoardSchemed(Trimmed(CountBounded(Advanced(p.(board := board))), size).board)
  {
    hide Trimmed, CountBounded;
    CountSchemed(Advanced(p.(board := board)));
    TrimSchemed(CountBounded(Advanced(p.(board := board))), size);
  }

  lemma PrunedBoardSchemed(b: Board, target: Id)
    requires BoardSchemed(b)
    ensures BoardSchemed(Pruned(b, target))
  {
    hide PrunedFrom;
    PrunedSchemed(b.active, b.active.keys, target);
    PrunedSchemed(b.tombstones, b.tombstones.keys, target);
  }

  /** Only an observed event puts something new on the board. */
  lemma {:induction false} StepSchemed(p: Producer, op: Op, size: Snapshot -> nat)
    requires BoardSchemed(p.board) && Careful(op)
    ensures BoardSchemed(Step(p, op, size).board)
  {
    hide Publishable, Touched, StartAgentWork, RememberActivity, RememberInvocation, CompleteActivity, ExpiredFrom,
      Trimmed, CountBounded, Posted, Pruned, FinishedIn, DictSchemed;
    match op
    case Start(target, turn, request, reading, now) => StartTicks(p, target, turn, request, reading, now);
    case Finish(target, turn, request) =>
    case Activity(item, activity, now) => ActivityTicks(p, item, activity, now);
    case Invoke(item, call, now) => InvocationTicks(p, item, call, now);
    case Consult(item, now) => TouchTicks(p, item, now);
    case ContextSent(item, target, now) => TouchTicks(p, item, now);
    case Complete(item, target, now) => CompleteTicks(p, item, target, now);
    case Settle(item, now) => TouchTicks(p, item, now);
    case Expire(now) => ExpireTicks(p, p.protocol.correlations.keys, now);
    case Post(event) =>
      PostedSchemed(p.board, event);
      PublishSchemed(p, Posted(p.board, event), size);
    case Prune(target) =>
      PrunedBoardSchemed(p.board, target);
      PublishSchemed(p, Pruned(p.board, target), size);
    case PruneProtocol(target) =>
      var q := FinishTarget(p, target);
      FinishTicks(p, target);
      PrunedBoardSchemed(q.board, target);
      PublishSchemed(q, Pruned(q.board, target), size);
    case Publish => TrimSchemed(p, size);
    case Reset =>
      EmptySchemed();
      TrimSchemed(Producer(p.root, p.epoch + 1, p.revision + 1, 0, false, NO_PROTOCOL, NO_BOARD), size);
  }

  lemma EmptySchemed()
    ensures BoardSchemed(NO_BOARD)
  {}

  lemma PostedSchemed(b: Board, e: Event)
    requires BoardSchemed(b) && e.schema
    ensures BoardSchemed(Posted(b, e))
  {
    hide StateKey;
  }

  lemma SnapshotSchemed(p: Producer)
    requires BoardSchemed(p.board)
    ensures Schemed(SnapshotValue(p))
  {}

  /** If every observed event of a run carries the schema, so does every event of every published snapshot. */
  lemma {:induction false} PublishedSchemed(p: Producer, ops: seq<Op>, size: Snapshot -> nat)
    requires BoardSchemed(p.board) && forall i :: 0 <= i < |ops| ==> Careful(ops[i])
    ensures forall s :: s in Published(p, ops, size) ==> Schemed(s)
    decreases |ops|
  {
    hide BoardSchemed, Step, Careful, SnapshotValue, Schemed;
    if ops != [] {
      var q := Step(p, ops[0], size);
      StepSchemed(p, ops[0], size);
      SnapshotSchemed(q);
      PublishedSchemed(q, ops[1..], size);
    }
  }

  /** Then no genuine newer snapshot is ever refused ... */
  lemma {:induction false} NewerNeverRefused(root: Id, ops: seq<Op>, size: Snapshot -> nat, c: Consumer, s: Snapshot)
    requires forall i :: 0 <= i < |ops| ==> Careful(ops[i])
    requires var log := Published(Initial(root), ops, size); Mirrors(c, log) && s in log
    requires Before(c.epoch, c.revision, s.epoch, s.revision)
    ensures Parsed(s) == Some(Consumed(c, s))
  {
    hide Published, Genuine, Mirrors, Consumed, Parsed, Careful;
    var log := Published(Initial(root), ops, size);
    PublishedIsGenuine(root, ops, size);
    EmptySchemed();
    PublishedSchemed(Initial(root), ops, size);
    ParsesIffSchemed([s], log);
    assert s in [s];
    NewerIsAccepted(c, s, log);
  }

  /** ... and consuming only the newest of a batch ends where consuming all of them in order ends. */
  lemma {:induction false} NewestSuffices(
    root: Id, ops: seq<Op>, size: Snapshot -> nat, c: Consumer, batch: seq<Snapshot>
  )
    requires forall i :: 0 <= i < |ops| ==> Careful(ops[i])
    requires var log := Published(Initial(root), ops, size);
             Mirrors(c, log) && batch != [] && forall s :: s in batch ==> s in log
    ensures Consumed(c, Newest(batch[0], batch[1..])) == ConsumedAll(c, batch)
  {
    hide Published, Genuine, Mirrors, Consumed, ConsumedAll, Newest, Schemed, Careful;
    var log := Published(Initial(root), ops, size);
    PublishedIsGenuine(root, ops, size);
    EmptySchemed();
    PublishedSchemed(Initial(root), ops, size);
    NewestOfBatch(c, batch, log);
    var n := Newest(batch[0], batch[1..]);
    assert n in batch;
  }

  // ---------------------------------------------------------------- a producer given other events

  function Plain(schema: bool, id: Id): Event {
    Event(schema, "item", false, "t", "", id, None, 0)
  }

  /** Two observed events, the second without the schema: what is published after each. */
  function First(): Snapshot {
    Snapshot(true, 0, 1, [Plain(true, "a")], [], [], 0, true)
  }

  function Second(): Snapshot {
    Snapshot(true, 0, 2, [Plain(true, "a"), Plain(false, "b")], [], [], 0, true)
  }

  /** An encoding that always fits. */
  function NoBytes(s: Snapshot): nat {
    0
  }

  lemma PostPublishes(p: Producer, e: Event, id: Id)
    requires e == Plain(e.schema, id) && id != "" && EventKey("t", id, "item") !in p.board.active.at
    requires Valid(p.board.active) && p.board.tombstones == Empty() && p.board.removed == []
    requires |p.board.active.keys| < BOARD_LIMIT
    ensures Step(p, Post(e), NoBytes)
         == p.(revision := p.revision + 1,
               board := Board(Put(p.board.active, EventKey("t", id, "item"), e), Empty(), []))
  {
    hide Posted, Trimmed, CountBounded;
    PlainPosted(p.board, e, id);
    NothingDropped(Advanced(p.(board := Posted(p.board, e))));
  }

  lemma PlainPosted(b: Board, e: Event, id: Id)
    requires e == Plain(e.schema, id) && id != "" && EventKey("t", id, "item") !in b.active.at
    requires Valid(b.active) && b.tombstones == Empty() && b.removed == []
    ensures Posted(b, e) == Board(Put(b.active, EventKey("t", id, "item"), e), Empty(), [])
  {
    var k := EventKey("t", id, "item");
    DropNothing(b.active, {k});
    assert Pop(Empty<EventKey, Event>(), k) == Empty();
  }

  lemma NothingDropped(p: Producer)
    requires BoardSize(p.board) <= BOARD_LIMIT
    ensures Trimmed(CountBounded(p), NoBytes) == p
  {
    hide SnapshotValue;
  }

  function AfterFirst(): Producer {
    var k := EventKey("t", "a", "item");
    Initial("r").(revision := 1, board := Board(Dict([k], map[k := Plain(true, "a")]), Empty(), []))
  }

  function AfterSecond(): Producer {
    var j, k := EventKey("t", "a", "item"), EventKey("t", "b", "item");
    Initial("r").(revision := 2,
      board := Board(Dict([j, k], map[j := Plain(true, "a"), k := Plain(false, "b")]), Empty(), []))
  }

  lemma FirstPost()
    ensures Step(Initial("r"), Post(Plain(true, "a")), NoBytes) == AfterFirst()
    ensures SnapshotValue(AfterFirst()) == First()
  {
    hide Step;
    PostPublishes(Initial("r"), Plain(true, "a"), "a");
    var d := AfterFirst().board.active;
    assert Values(d.keys, d.at) == [Plain(true, "a")];
  }

  lemma SecondPost()
    ensures Step(AfterFirst(), Post(Plain(false, "b")), NoBytes) == AfterSecond()
    ensures SnapshotValue(AfterSecond()) == Second()
  {
    hide Step;
    PostPublishes(AfterFirst(), Plain(false, "b"), "b");
    var d := AfterSecond().board.active;
    assert Values(d.keys, d.at) == [Plain(true, "a"), Plain(false, "b")];
  }

  function TwoPosts(): seq<Op> {
    [Post(Plain(true, "a")), Post(Plain(false, "b"))]
  }

  lemma TwoPublished()
    ensures Published(Initial("r"), TwoPosts(), NoBytes) == {First(), Second()}
  {
    hide Step, AfterFirst, AfterSecond, SnapshotValue, First, Second;
    FirstPost();
    SecondPost();
    var ops := TwoPosts();
    assert ops[1..] == [Post(Plain(false, "b"))] && ops[1..][1..] == [];
  }

  /**
   A run that observes one event without the schema publishes a snapshot that a fresh consumer refuses;
   of the batch of both snapshots, the newest alone leaves the consumer behind.
   */
  lemma MissingSchemaRefused()
    ensures var log := Published(Initial("r"), TwoPosts(), NoBytes);
            && First() in log && Second() in log
            && Before(FRESH.epoch, FRESH.revision, Second().epoch, Second().revision)
            && Consumed(FRESH, Second()) == FRESH
            && Newest(First(), [Second()]) == Second()
            && ConsumedAll(FRESH, [First(), Second()]) != Consumed(FRESH, Newest(First(), [Second()]))
  {
    hide Published, Collected;
    TwoPublished();
    CollectedRefuses(Empty(), Second().events);
    assert !Second().events[1].schema;
    FirstAccepted();
    var batch := [First(), Second()];
    assert batch[1..] == [Second()] && batch[1..][1..] == [];
    assert [Second()][1..] == [];
  }

  lemma FirstAccepted()
    ensures Consumed(FRESH, First()).revision == 1
  {
    assert First().events[1..] == [];
  }
}
