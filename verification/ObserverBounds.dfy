/**
 What every producer operation keeps: the limits, the target index as the exact inverse of the
 records' targets, payloads only for retained records, running agents among the known ones, and a
 board whose every event is filed under its own key.
 */
module ObserverBounds {
  import opened Wrappers
  import opened OrderedDict
  import opened Observer

  predicate RecordOk(c: Correlation) {
    && |c.targets| <= TARGET_LIMIT
    && c.started <= c.targets && c.finished <= c.targets && c.activities.Keys <= c.targets
  }

  predicate InIndex(x: Protocol, t: Id, k: Key) {
    t in x.index && k in x.index[t]
  }

  predicate InTargets(x: Protocol, t: Id, k: Key) {
    k in x.correlations.at && t in x.correlations.at[k].targets
  }

  ghost predicate IndexExact(x: Protocol) {
    && (forall t, k :: InIndex(x, t, k) <==> InTargets(x, t, k))
    && (forall t :: t in x.index ==> x.index[t] != {})
  }

  predicate RecordsOk(x: Protocol, epoch: nat, root: Id) {
    && Valid(x.correlations)
    && (forall k :: k in x.correlations.at ==> k.epoch == epoch && k.root == root && RecordOk(x.correlations.at[k]))
  }

  predicate PayloadsLinked(x: Protocol) {
    Valid(x.payloads) && x.payloads.at.Keys <= x.correlations.at.Keys
  }

  /** Records, payloads and index agree; the size limits are separate. */
  ghost predicate Linked(p: Producer) {
    RecordsOk(p.protocol, p.epoch, p.root) && PayloadsLinked(p.protocol) && IndexExact(p.protocol)
  }

  predicate Limits(x: Protocol) {
    |x.correlations.keys| <= CORRELATION_LIMIT && PayloadsFit(x.payloads)
  }

  predicate AgentsOk(x: Protocol) {
    && x.work.Keys <= x.known && |x.known| <= KNOWN_AGENT_LIMIT
    && Valid(x.paths) && x.paths.at.Keys <= x.known
  }

  predicate Filed(d: Dict<EventKey, Event>) {
    Valid(d) && forall k :: k in d.at ==> StateKey(d.at[k]) == k
  }

  predicate BoardShape(b: Board) {
    && Filed(b.active) && Filed(b.tombstones) && b.active.at.Keys !! b.tombstones.at.Keys
    && Distinct(b.removed) && "" !in b.removed
  }

  predicate BoardOk(b: Board) {
    BoardShape(b) && BoardSize(b) <= BOARD_LIMIT
  }

  ghost predicate Consistent(p: Producer) {
    Linked(p) && Limits(p.protocol) && AgentsOk(p.protocol) && BoardOk(p.board)
  }

  // ---------------------------------------------------------------- records, payloads and index

  lemma AmendLinked(p: Producer, k: Key, c: Correlation)
    requires Linked(p) && k in p.protocol.correlations.at && RecordOk(c) && c.targets == Record(p, k).targets
    ensures Linked(Amended(p, k, c))
  {
    var q := Amended(p, k, c);
    assert forall t, j :: InTargets(q.protocol, t, j) == InTargets(p.protocol, t, j);
    assert forall t, j :: InIndex(q.protocol, t, j) == InIndex(p.protocol, t, j);
  }

  lemma CreateLinked(p: Producer, k: Key, c: Correlation)
    requires Linked(p) && k !in p.protocol.correlations.at && RecordOk(c) && c.targets == {}
    requires k.epoch == p.epoch && k.root == p.root
    ensures Linked(Amended(p, k, c))
  {
    var q := Amended(p, k, c);
    PutValid(p.protocol.correlations, k, c);
    assert forall t, j :: InTargets(q.protocol, t, j) == InTargets(p.protocol, t, j);
    assert forall t, j :: InIndex(q.protocol, t, j) == InIndex(p.protocol, t, j);
  }

  lemma UnindexExact(x: Protocol, y: Protocol, k: Key)
    requires IndexExact(x) && k in x.correlations.at
    requires y.correlations.at == x.correlations.at - {k}
    requires y.index == Unindexed(x.index, x.correlations.at[k].targets, k)
    ensures IndexExact(y)
  {
    forall t, j ensures InIndex(y, t, j) <==> InTargets(y, t, j) {
      assert InIndex(x, t, j) <==> InTargets(x, t, j);
      assert InIndex(x, t, k) <==> InTargets(x, t, k);
    }
  }

  lemma EvictLinked(p: Producer, k: Key)
    requires Linked(p) && k in p.protocol.correlations.at
    ensures Linked(Evicted(p, k))
    ensures |Evicted(p, k).protocol.correlations.keys| < |p.protocol.correlations.keys|
    ensures PayloadsFit(p.protocol.payloads) ==> PayloadsFit(Evicted(p, k).protocol.payloads)
  {
    var x := p.protocol;
    DropValid(x.correlations, {k});
    DropValid(x.payloads, {k});
    WithoutOne(x.correlations.keys, k);
    PopFits(x.payloads, {k});
    UnindexExact(x, Evicted(p, k).protocol, k);
  }

  lemma {:induction false} BytesWithout(keys: seq<Key>, at: map<Key, Invocation>, drop: set<Key>)
    ensures TotalBytes(Without(keys, drop), at - drop) <= TotalBytes(keys, at)
  {
    if keys != [] {
      BytesWithout(keys[1..], at, drop);
      if keys[0] in drop {
        assert Without(keys, drop) == Without(keys[1..], drop);
      } else {
        assert ([keys[0]] + Without(keys[1..], drop))[1..] == Without(keys[1..], drop);
      }
    }
  }

  lemma PopFits(payloads: Dict<Key, Invocation>, drop: set<Key>)
    ensures PayloadsFit(payloads) ==> PayloadsFit(Drop(payloads, drop))
  {
    BytesWithout(payloads.keys, payloads.at, drop);
  }

  lemma DropPayloadsLinked(p: Producer, drop: set<Key>)
    requires Linked(p)
    ensures Linked(p.(protocol := p.protocol.(payloads := Drop(p.protocol.payloads, drop))))
  {
    var y := p.protocol.(payloads := Drop(p.protocol.payloads, drop));
    DropValid(p.protocol.payloads, drop);
    assert forall t, j :: InTargets(y, t, j) == InTargets(p.protocol, t, j);
    assert forall t, j :: InIndex(y, t, j) == InIndex(p.protocol, t, j);
  }

  /** The agents and the board, which the record operations leave alone. */
  predicate SameRest(p: Producer, q: Producer) {
    && q.protocol.known == p.protocol.known && q.protocol.paths == p.protocol.paths
    && q.protocol.work == p.protocol.work && q.board == p.board && q.root == p.root && q.epoch == p.epoch
  }

  lemma {:induction false} RoomLinked(p: Producer)
    requires Linked(p) && PayloadsFit(p.protocol.payloads)
    ensures var q := WithRoom(p);
            && Linked(q) && SameRest(p, q) && PayloadsFit(q.protocol.payloads)
            && |q.protocol.correlations.keys| < CORRELATION_LIMIT
            && q.protocol.correlations.at.Keys <= p.protocol.correlations.at.Keys
    decreases |p.protocol.correlations.keys|
  {
    if |p.protocol.correlations.keys| >= CORRELATION_LIMIT {
      var k := p.protocol.correlations.keys[0];
      assert k in p.protocol.correlations.keys;
      EvictLinked(p, k);
      RoomLinked(Evicted(p, k));
    }
  }

  lemma TouchLinked(p: Producer, item: Id, now: int)
    requires Linked(p) && Limits(p.protocol)
    ensures var q := Touched(p, item, now);
            Linked(q) && Limits(q.protocol) && SameRest(p, q) && KeyOf(p, item) in q.protocol.correlations.at
  {
    hide WithRoom, Linked;
    if KeyOf(p, item) !in p.protocol.correlations.at {
      RoomLinked(p);
      CreateLinked(WithRoom(p), KeyOf(p, item), Blank(now, WithRoom(p).incomplete));
    }
  }

  lemma IndexLinked(p: Producer, k: Key, target: Id)
    requires Linked(p) && k in p.protocol.correlations.at
    ensures var q := Indexed(p, k, target);
            && Linked(q) && SameRest(p, q) && q.protocol.payloads == p.protocol.payloads
            && k in q.protocol.correlations.at && q.protocol.correlations.keys == p.protocol.correlations.keys
            && (!Full(Record(p, k), target) ==> target in Record(q, k).targets)
  {
    hide IndexExact, IndexAdded, Valid, RecordOk;
    var q := Indexed(p, k, target);
    var x, y := p.protocol, q.protocol;
    if Full(Record(p, k), target) {
      MarkLinked(p);
    } else {
      GrownOk(p, k, target);
      PutValid(x.correlations, k, Record(p, k).(targets := Record(p, k).targets + {target}));
      IndexAddedExact(x, y, k, target);
    }
  }

  lemma GrownOk(p: Producer, k: Key, target: Id)
    requires Linked(p) && k in p.protocol.correlations.at && !Full(Record(p, k), target)
    ensures RecordOk(Record(p, k).(targets := Record(p, k).targets + {target}))
  {
    hide IndexExact, PayloadsLinked, Valid;
    assert RecordOk(Record(p, k));
    TargetsBound(Record(p, k).targets, target);
  }

  lemma IndexAddedExact(x: Protocol, y: Protocol, k: Key, target: Id)
    requires IndexExact(x) && k in x.correlations.at && k in y.correlations.at
    requires y.correlations.at == x.correlations.at[k := y.correlations.at[k]]
    requires y.correlations.at[k].targets == x.correlations.at[k].targets + {target}
    requires y.index == IndexAdded(x.index, target, k)
    ensures IndexExact(y)
  {
    forall t, j ensures InIndex(y, t, j) <==> InTargets(y, t, j) {
      assert InIndex(x, t, j) <==> InTargets(x, t, j);
    }
  }

  lemma TargetsBound(s: set<Id>, t: Id)
    requires |s| <= TARGET_LIMIT && (t in s || |s| < TARGET_LIMIT)
    ensures |s + {t}| <= TARGET_LIMIT
  {
    if t in s {
      assert s + {t} == s;
    }
  }

  lemma {:induction false} IndexAllLinked(p: Producer, k: Key, targets: seq<Id>)
    requires Linked(p) && k in p.protocol.correlations.at
    ensures var q := IndexedAll(p, k, targets);
            && Linked(q) && SameRest(p, q) && q.protocol.payloads == p.protocol.payloads
            && k in q.protocol.correlations.at && q.protocol.correlations.keys == p.protocol.correlations.keys
    decreases |targets|
  {
    hide Indexed, Linked;
    if targets != [] {
      IndexLinked(p, k, targets[0]);
      IndexAllLinked(Indexed(p, k, targets[0]), k, targets[1..]);
    }
  }

  lemma RetireLinked(p: Producer, k: Key)
    requires Linked(p) && k in p.protocol.payloads.at
    ensures var q := PayloadRetired(p, k);
            && Linked(q) && SameRest(p, q) && q.protocol.correlations.keys == p.protocol.correlations.keys
            && q.protocol.payloads == Pop(p.protocol.payloads, k)
  {
    var c := Record(p, k).(uncertain := true);
    assert RecordOk(Record(p, k));
    AmendLinked(p, k, c);
    DropPayloadsLinked(Amended(p, k, c), {k});
    var m := Amended(p, k, c);
    var d := m.(protocol := m.protocol.(payloads := Pop(m.protocol.payloads, k)));
    MarkLinked(d);
  }

  lemma MarkLinked(p: Producer)
    requires Linked(p)
    ensures Linked(MarkIncomplete(p))
  {}

  lemma {:induction false} PayloadsBoundedFits(p: Producer)
    requires Linked(p)
    ensures var q := PayloadsBounded(p);
            && Linked(q) && SameRest(p, q) && PayloadsFit(q.protocol.payloads)
            && q.protocol.correlations.keys == p.protocol.correlations.keys
    decreases |p.protocol.payloads.keys|
  {
    hide PayloadRetired;
    if !PayloadsFit(p.protocol.payloads) && p.protocol.payloads.keys != [] {
      var k := p.protocol.payloads.keys[0];
      assert k in p.protocol.payloads.keys;
      RetireLinked(p, k);
      WithoutFirst(p.protocol.payloads.keys);
      PayloadsBoundedFits(PayloadRetired(p, k));
    }
  }

  lemma {:induction false} ExpireLinked(p: Producer, keys: seq<Key>, now: int)
    requires Linked(p) && Limits(p.protocol)
    ensures var q := ExpiredFrom(p, keys, now); Linked(q) && Limits(q.protocol) && SameRest(p, q)
    decreases |keys|
  {
    hide Linked;
    if keys != [] {
      if keys[0] in p.protocol.correlations.at && p.protocol.correlations.at[keys[0]].expires <= now {
        EvictLinked(p, keys[0]);
        ExpireLinked(Evicted(p, keys[0]), keys[1..], now);
      } else {
        ExpireLinked(p, keys[1..], now);
      }
    }
  }

  lemma FinishLinked(p: Producer, target: Id)
    requires Linked(p)
    ensures var q := FinishedIn(p, KeysMentioning(p, target), target);
            && Linked(q) && SameRest(p, q) && q.protocol.correlations.keys == p.protocol.correlations.keys
            && (PayloadsFit(p.protocol.payloads) ==> PayloadsFit(q.protocol.payloads))
  {
    var ks := KeysMentioning(p, target);
    var q := FinishedIn(p, ks, target);
    var x, y := p.protocol, q.protocol;
    var drop := SettledIn(y.correlations.at, ks);
    DropValid(x.payloads, drop);
    PopFits(x.payloads, drop);
    forall k | k in ks ensures InTargets(x, target, k) {
      assert InIndex(x, target, k);
    }
    FinishedTargets(p, ks, target);
  }

  lemma FinishedTargets(p: Producer, ks: set<Key>, target: Id)
    requires Linked(p) && forall k :: k in ks ==> InTargets(p.protocol, target, k)
    ensures var q := FinishedIn(p, ks, target);
            IndexExact(q.protocol) && RecordsOk(q.protocol, q.epoch, q.root)
  {
    var q := FinishedIn(p, ks, target);
    assert forall t, j :: InTargets(q.protocol, t, j) == InTargets(p.protocol, t, j);
    assert forall t, j :: InIndex(q.protocol, t, j) == InIndex(p.protocol, t, j);
    forall k | k in q.protocol.correlations.at ensures RecordOk(q.protocol.correlations.at[k]) {
      assert k in ks ==> InTargets(p.protocol, target, k);
    }
  }

  // ---------------------------------------------------------------- agents

  lemma {:induction false} IdleIsKnown(paths: seq<Id>, work: map<Id, Work>)
    ensures FirstIdle(paths, work).Some? ==>
      FirstIdle(paths, work).value in paths && FirstIdle(paths, work).value !in work
  {
    if paths != [] {
      IdleIsKnown(paths[1..], work);
    }
  }

  /** The records, payloads and index are as they were. */
  predicate SameRecords(p: Producer, q: Producer) {
    && q.protocol.correlations == p.protocol.correlations && q.protocol.payloads == p.protocol.payloads
    && q.protocol.index == p.protocol.index && q.board == p.board && q.root == p.root && q.epoch == p.epoch
  }

  lemma SameRecordsLinked(p: Producer, q: Producer)
    requires Linked(p) && SameRecords(p, q)
    ensures Linked(q)
  {
    assert forall t, j :: InTargets(q.protocol, t, j) == InTargets(p.protocol, t, j);
    assert forall t, j :: InIndex(q.protocol, t, j) == InIndex(p.protocol, t, j);
  }

  lemma WithPathOk(x: Protocol, target: Id, path: Option<string>)
    requires AgentsOk(x) && (target in x.known || |x.known| < KNOWN_AGENT_LIMIT)
    ensures AgentsOk(WithPath(x, target, path))
  {
    if path.Some? {
      PutValid(x.paths, target, path.value);
    }
    if target in x.known {
      assert x.known + {target} == x.known;
    }
  }

  lemma RememberOk(p: Producer, target: Id, path: Option<string>)
    requires AgentsOk(p.protocol)
    ensures var r := Remembered(p, target, path);
            && AgentsOk(r.state.protocol) && SameRecords(p, r.state) && r.state.protocol.work == p.protocol.work
            && (r.flag ==> target in r.state.protocol.known)
  {
    hide Valid, Put;
    var x := p.protocol;
    if target in x.known || |x.known| < KNOWN_AGENT_LIMIT {
      WithPathOk(x, target, path);
    } else {
      var idle := FirstIdle(x.paths.keys, x.work);
      IdleIsKnown(x.paths.keys, x.work);
      if idle.Some? {
        var i := idle.value;
        DropValid(x.paths, {i});
        InPaths(x.paths, i);
        var retired := x.(known := x.known - {i}, paths := Pop(x.paths, i));
        WithPathOk(retired, target, path);
      }
    }
  }

  lemma InPaths(d: Dict<Id, string>, i: Id)
    requires Valid(d) && i in d.keys
    ensures i in d.at
  {}

  lemma AssignOk(p: Producer, target: Id, turn: Option<Id>, request: Option<Id>)
    requires AgentsOk(p.protocol)
    ensures var s := Assigned(p, target, turn, request).state; AgentsOk(s.protocol) && SameRecords(p, s)
  {
    hide Remembered;
    RememberOk(p, target, None);
  }

  // ---------------------------------------------------------------- the board

  lemma PopOldestFiled(d: Dict<EventKey, Event>)
    requires Filed(d) && d.keys != []
    ensures Filed(PopOldest(d)) && PopOldest(d).at.Keys <= d.at.Keys && |PopOldest(d).keys| == |d.keys| - 1
  {
    PopFirst(d);
    DropValid(d, {d.keys[0]});
  }

  lemma PopFiled(d: Dict<EventKey, Event>, k: EventKey)
    requires Filed(d)
    ensures Filed(Pop(d, k)) && k !in Pop(d, k).at && Pop(d, k).at.Keys <= d.at.Keys
  {
    DropValid(d, {k});
  }

  lemma PutFiled(d: Dict<EventKey, Event>, e: Event)
    requires Filed(d)
    ensures Filed(Put(d, StateKey(e), e))
  {
    PutValid(d, StateKey(e), e);
  }

  lemma DropForCountOk(b: Board)
    requires BoardShape(b) && BoardSize(b) > 0
    ensures BoardShape(DropForCount(b)) && BoardSize(DropForCount(b)) == BoardSize(b) - 1
  {
    hide PopOldest, Filed;
    if b.tombstones.keys != [] {
      PopOldestFiled(b.tombstones);
    } else if b.removed == [] {
      PopOldestFiled(b.active);
    }
  }

  lemma DropForBytesOk(b: Board)
    requires BoardShape(b) && BoardSize(b) > 0
    ensures BoardShape(DropForBytes(b)) && BoardSize(DropForBytes(b)) == BoardSize(b) - 1
  {
    hide PopOldest, Filed;
    if b.active.keys != [] {
      PopOldestFiled(b.active);
    } else if b.tombstones.keys != [] {
      PopOldestFiled(b.tombstones);
    }
  }

  lemma {:induction false} CountBoundedOk(p: Producer)
    requires BoardShape(p.board)
    ensures var q := CountBounded(p);
            && BoardOk(q.board) && q == p.(board := q.board, dropped := q.dropped)
            && q.dropped - p.dropped == BoardSize(p.board) - BoardSize(q.board)
    decreases BoardSize(p.board)
  {
    hide BoardShape, DropForCount;
    if BoardSize(p.board) > BOARD_LIMIT {
      DropForCountOk(p.board);
      CountBoundedOk(p.(board := DropForCount(p.board), dropped := p.dropped + 1));
    }
  }

  lemma {:induction false} TrimmedOk(p: Producer, size: Snapshot -> nat)
    requires BoardOk(p.board)
    ensures var q := Trimmed(p, size);
            && BoardOk(q.board) && q == p.(board := q.board, dropped := q.dropped)
            && Publishable(q, size) && q.dropped >= p.dropped
            && q.dropped - p.dropped == BoardSize(p.board) - BoardSize(q.board)
    decreases BoardSize(p.board)
  {
    hide BoardShape, DropForBytes, SnapshotValue;
    if !Publishable(p, size) {
      DropForBytesOk(p.board);
      TrimmedOk(p.(board := DropForBytes(p.board), dropped := p.dropped + 1), size);
    }
  }

  lemma PostedShape(b: Board, e: Event)
    requires BoardShape(b)
    ensures BoardShape(Posted(b, e))
  {
    hide Filed, StateKey;
    var k := StateKey(e);
    PopFiled(b.active, k);
    PopFiled(b.tombstones, k);
    PutFiled(Pop(b.active, k), e);
    PutFiled(Pop(b.tombstones, k), e);
    var t := EventTarget(e);
    if t.Some? {
      WithoutDistinct(b.removed, {t.value});
    }
  }

  /** Dropping a receiver never changes where an event is filed. */
  lemma PruneKeepsKey(e: Event, target: Id)
    requires e.item.Some?
    ensures StateKey(PrunedEvent(e, target)) == StateKey(e) && EventTarget(PrunedEvent(e, target)) == EventTarget(e)
  {}

  lemma PrunedAtFiled(d: Dict<EventKey, Event>, k: EventKey, target: Id)
    requires Filed(d)
    ensures Filed(PrunedAt(d, k, target)) && PrunedAt(d, k, target).at.Keys <= d.at.Keys
  {
    hide StateKey, EventTarget;
    if k in d.at && Mentions(d.at[k], target) {
      if Without(Receivers(d.at[k]), {target}) != [] {
        PruneKeepsKey(d.at[k], target);
        PutFiled(d, PrunedEvent(d.at[k], target));
      } else {
        PopFiled(d, k);
      }
    }
  }

  lemma {:induction false} PrunedFiled(d: Dict<EventKey, Event>, keys: seq<EventKey>, target: Id)
    requires Filed(d)
    ensures Filed(PrunedFrom(d, keys, target)) && PrunedFrom(d, keys, target).at.Keys <= d.at.Keys
    decreases |keys|
  {
    hide Filed, PrunedAt;
    if keys != [] {
      PrunedAtFiled(d, keys[0], target);
      PrunedFiled(PrunedAt(d, keys[0], target), keys[1..], target);
    }
  }

  lemma AppendDistinct(s: seq<Id>, t: Id)
    requires Distinct(s)
    ensures Distinct(Without(s, {t}) + [t])
  {
    WithoutDistinct(s, {t});
  }

  lemma PrunedShape(b: Board, target: Id)
    requires BoardShape(b) && target != ""
    ensures BoardShape(Pruned(b, target))
  {
    hide Filed, PrunedFrom;
    PrunedFiled(b.active, b.active.keys, target);
    PrunedFiled(b.tombstones, b.tombstones.keys, target);
    AppendDistinct(b.removed, target);
  }

  // ---------------------------------------------------------------- every operation

  lemma RestConsistent(p: Producer, q: Producer)
    requires Consistent(p) && SameRest(p, q) && Linked(q) && Limits(q.protocol)
    ensures Consistent(q)
  {}

  lemma AgentsConsistent(p: Producer, q: Producer)
    requires Consistent(p) && SameRecords(p, q) && AgentsOk(q.protocol)
    ensures Consistent(q)
  {
    SameRecordsLinked(p, q);
  }

  lemma MarkConsistent(p: Producer)
    requires Consistent(p)
    ensures Consistent(MarkIncomplete(p))
  {
    AgentsConsistent(p, MarkIncomplete(p));
  }

  lemma TouchConsistent(p: Producer, item: Id, now: int)
    requires Consistent(p)
    ensures Consistent(Touched(p, item, now)) && KeyOf(p, item) in Touched(p, item, now).protocol.correlations.at
    ensures Touched(p, item, now).epoch == p.epoch && Touched(p, item, now).root == p.root
  {
    hide Linked, Limits, AgentsOk, BoardOk, Touched;
    TouchLinked(p, item, now);
    RestConsistent(p, Touched(p, item, now));
  }

  lemma AmendConsistent(p: Producer, k: Key, c: Correlation)
    requires Consistent(p) && k in p.protocol.correlations.at && RecordOk(c) && c.targets == Record(p, k).targets
    ensures Consistent(Amended(p, k, c))
  {
    AmendLinked(p, k, c);
    RestConsistent(p, Amended(p, k, c));
  }

  lemma RecordIsOk(p: Producer, k: Key)
    requires Linked(p) && k in p.protocol.correlations.at
    ensures RecordOk(Record(p, k))
  {}

  lemma IndexConsistent(p: Producer, k: Key, target: Id)
    requires Consistent(p) && k in p.protocol.correlations.at
    ensures Consistent(Indexed(p, k, target)) && k in Indexed(p, k, target).protocol.correlations.at
    ensures !Full(Record(p, k), target) ==> target in Record(Indexed(p, k, target), k).targets
  {
    hide Linked, AgentsOk, BoardOk, Indexed;
    IndexLinked(p, k, target);
    RestConsistent(p, Indexed(p, k, target));
  }

  lemma AssignConsistent(p: Producer, target: Id, turn: Option<Id>, request: Option<Id>)
    requires Consistent(p)
    ensures Consistent(Assigned(p, target, turn, request).state)
  {
    hide Linked, Limits, AgentsOk, BoardOk, Assigned;
    AssignOk(p, target, turn, request);
    AgentsConsistent(p, Assigned(p, target, turn, request).state);
  }

  lemma {:induction false} StartConsistent(
    p: Producer, target: Id, turn: Option<Id>, request: Option<Id>, reading: Option<Id>, now: int
  )
    requires Consistent(p)
    ensures Consistent(StartAgentWork(p, target, turn, request, reading, now).state)
  {
    hide Consistent, Touched, Assigned, Indexed, RecordOk;
    if request.None? {
      AssignConsistent(p, target, turn, None);
    } else {
      var q, k := Touched(p, request.value, now), KeyOf(p, request.value);
      TouchConsistent(p, request.value, now);
      if Full(Record(q, k), target) {
        MarkConsistent(q);
      } else {
        var r := Indexed(q, k, target);
        IndexConsistent(q, k, target);
        var c := Record(r, k);
        var started := c.(started := c.started + {target});
        StartedOk(r, k, target);
        AmendConsistent(r, k, started);
        AssignConsistent(Amended(r, k, started), target, turn, request);
        AssignConsistent(r, target, reading, None);
      }
    }
  }

  lemma StartedOk(p: Producer, k: Key, target: Id)
    requires Consistent(p) && k in p.protocol.correlations.at && target in Record(p, k).targets
    ensures RecordOk(Record(p, k).(started := Record(p, k).started + {target}))
  {}

  lemma {:induction false} ActivityConsistent(p: Producer, item: Id, e: Observer.Activity, now: int)
    requires Consistent(p)
    ensures Consistent(RememberActivity(p, item, e, now).state)
  {
    hide Linked, Limits, AgentsOk, BoardOk, Touched, Remembered, RecordOk;
    if e.thread == p.root {
      var q, k := Touched(p, item, now), KeyOf(p, item);
      TouchConsistent(p, item, now);
      var c := Record(q, k);
      if e.agent !in c.finished {
        if Full(c, e.agent) {
          MarkConsistent(q);
        } else {
          var r := Remembered(q, e.agent, Some(e.path));
          RememberOk(q, e.agent, Some(e.path));
          AgentsConsistent(q, r.state);
          ActivityFiledConsistent(r.state, k, e);
        }
      }
    }
  }

  /** Between filing an activity and indexing its agent the record is briefly ahead of its targets. */
  lemma ActivityFiledConsistent(p: Producer, k: Key, e: Observer.Activity)
    requires Consistent(p) && k in p.protocol.correlations.at && !Full(Record(p, k), e.agent)
    ensures var c := Record(p, k);
            var kept := c.(activities := c.activities[e.agent := e.(attached := false)]);
            Consistent(Indexed(Amended(p, k, kept), k, e.agent))
  {
    hide AgentsOk, BoardOk, IndexExact, Linked, IndexAdded;
    var c := Record(p, k);
    var kept := c.(activities := c.activities[e.agent := e.(attached := false)]);
    var grown := kept.(targets := c.targets + {e.agent});
    IndexConsistent(p, k, e.agent);
    var i := Indexed(p, k, e.agent);
    RecordIsOk(i, k);
    assert Record(i, k) == c.(targets := c.targets + {e.agent});
    AmendConsistent(i, k, grown);
    assert Amended(i, k, grown) == Indexed(Amended(p, k, kept), k, e.agent) by {
      var at := p.protocol.correlations.at;
      assert at[k := c.(targets := c.targets + {e.agent})][k := grown] == at[k := kept][k := grown];
    }
  }

  lemma {:induction false} InvocationConsistent(p: Producer, item: Id, call: Invocation, now: int)
    requires Consistent(p)
    ensures Consistent(RememberInvocation(p, item, call, now).state)
  {
    hide Linked, AgentsOk, BoardOk, Touched, IndexedAll, PayloadsBounded;
    if call.thread == p.root {
      var q, k := Touched(p, item, now), KeyOf(p, item);
      TouchConsistent(p, item, now);
      RecordIsOk(q, k);
      var c := Record(q, k).(phases := Record(q, k).phases + {call.phase});
      AmendConsistent(q, k, c);
      var m := Amended(q, k, c);
      var r := IndexedAll(m, k, call.receivers);
      IndexAllLinked(m, k, call.receivers);
      RestConsistent(m, r);
      var kept := r.(protocol := r.protocol.(payloads := Put(r.protocol.payloads, k, call)));
      PutPayloadLinked(r, k, call);
      PayloadsBoundedFits(kept);
      RestConsistent(r, PayloadsBounded(kept));
    }
  }

  lemma PutPayloadLinked(p: Producer, k: Key, call: Invocation)
    requires Linked(p) && k in p.protocol.correlations.at
    ensures Linked(p.(protocol := p.protocol.(payloads := Put(p.protocol.payloads, k, call))))
  {
    var y := p.protocol.(payloads := Put(p.protocol.payloads, k, call));
    PutValid(p.protocol.payloads, k, call);
    assert forall t, j :: InTargets(y, t, j) == InTargets(p.protocol, t, j);
    assert forall t, j :: InIndex(y, t, j) == InIndex(p.protocol, t, j);
  }

  lemma SettleConsistent(p: Producer, item: Id, now: int)
    requires Consistent(p)
    ensures Consistent(SettleCorrelation(p, item, now))
  {
    hide Linked, AgentsOk, BoardOk, Touched, PayloadsFit;
    var q, k := Touched(p, item, now), KeyOf(p, item);
    TouchConsistent(p, item, now);
    DropPayloadsLinked(q, {k});
    PopFits(q.protocol.payloads, {k});
    RestConsistent(q, q.(protocol := q.protocol.(payloads := Pop(q.protocol.payloads, k))));
  }

  lemma CompleteConsistent(p: Producer, item: Id, target: Id, now: int)
    requires Consistent(p)
    ensures Consistent(CompleteActivity(p, item, target, now))
  {
    hide Linked, AgentsOk, BoardOk, Touched, Limits, SettleCorrelation;
    var q, k := Touched(p, item, now), KeyOf(p, item);
    TouchConsistent(p, item, now);
    RecordIsOk(q, k);
    var c := Record(q, k).(completed := Record(q, k).completed + {target});
    AmendConsistent(q, k, c);
    SettleConsistent(Amended(q, k, c), item, now);
  }

  lemma ContextConsistent(p: Producer, item: Id, target: Id, now: int)
    requires Consistent(p)
    ensures Consistent(MarkContextSent(p, item, target, now))
  {
    hide Linked, AgentsOk, BoardOk, Touched, Limits;
    var q, k := Touched(p, item, now), KeyOf(p, item);
    TouchConsistent(p, item, now);
    RecordIsOk(q, k);
    AmendConsistent(q, k, Record(q, k).(contextSent := Record(q, k).contextSent + {target}));
  }

  lemma FinishConsistent(p: Producer, target: Id, turn: Option<Id>, request: Option<Id>)
    requires Consistent(p)
    ensures Consistent(FinishAgentWork(p, target, turn, request).state)
  {
    hide Linked, BoardOk, Limits;
    AgentsConsistent(p, FinishAgentWork(p, target, turn, request).state);
  }

  lemma FinishTargetConsistent(p: Producer, target: Id)
    requires Consistent(p)
    ensures Consistent(FinishTarget(p, target))
  {
    hide Linked, BoardOk, AgentsOk, FinishAgentWork, FinishedIn, PayloadsFit;
    var q := FinishAgentWork(p, target, None, None).state;
    FinishConsistent(p, target, None, None);
    FinishLinked(q, target);
    RestConsistent(q, FinishedIn(q, KeysMentioning(q, target), target));
  }

  lemma {:induction false} PublishConsistent(p: Producer, board: Board, size: Snapshot -> nat)
    requires Consistent(p) && BoardShape(board)
    ensures Consistent(Trimmed(CountBounded(Advanced(p.(board := board))), size))
  {
    hide BoardOk, AgentsOk, Limits, CountBounded, Trimmed, Publishable, BoardShape, IndexExact, RecordsOk,
      PayloadsLinked;
    var q := Advanced(p.(board := board));
    CountBoundedOk(q);
    TrimmedOk(CountBounded(q), size);
  }

  lemma TrimConsistent(p: Producer, size: Snapshot -> nat)
    requires Consistent(p)
    ensures Consistent(Trimmed(p, size))
  {
    hide BoardOk, AgentsOk, Limits, Trimmed, Publishable, IndexExact, RecordsOk, PayloadsLinked;
    TrimmedOk(p, size);
  }

  lemma InitialConsistent(root: Id, epoch: nat, revision: nat)
    ensures Consistent(Producer(root, epoch, revision, 0, false, NO_PROTOCOL, NO_BOARD))
  {
    assert forall t, k :: !InIndex(NO_PROTOCOL, t, k) && !InTargets(NO_PROTOCOL, t, k);
  }

  lemma ExpireConsistent(p: Producer, now: int)
    requires Consistent(p)
    ensures Consistent(ExpiredFrom(p, p.protocol.correlations.keys, now))
  {
    hide Linked, Limits, AgentsOk, BoardOk;
    ExpireLinked(p, p.protocol.correlations.keys, now);
    RestConsistent(p, ExpiredFrom(p, p.protocol.correlations.keys, now));
  }

  lemma BoardIsShaped(p: Producer)
    requires Consistent(p)
    ensures BoardShape(p.board)
  {}

  /** Every operation keeps every limit and every correspondence. */
  lemma {:induction false} StepConsistent(p: Producer, op: Op, size: Snapshot -> nat)
    requires Consistent(p)
    ensures Consistent(Step(p, op, size))
  {
    hide Consistent, Touched, StartAgentWork, FinishAgentWork, RememberActivity, RememberInvocation, MarkContextSent,
      CompleteActivity, SettleCorrelation, ExpiredFrom, Trimmed, CountBounded, FinishTarget, BoardShape, Posted, Pruned;
    match op
    case Start(target, turn, request, reading, now) => StartConsistent(p, target, turn, request, reading, now);
    case Finish(target, turn, request) => FinishConsistent(p, target, turn, request);
    case Activity(item, activity, now) => ActivityConsistent(p, item, activity, now);
    case Invoke(item, call, now) => InvocationConsistent(p, item, call, now);
    case Consult(item, now) => TouchConsistent(p, item, now);
    case ContextSent(item, target, now) => ContextConsistent(p, item, target, now);
    case Complete(item, target, now) => CompleteConsistent(p, item, target, now);
    case Settle(item, now) => SettleConsistent(p, item, now);
    case Expire(now) => ExpireConsistent(p, now);
    case Post(event) =>
      BoardIsShaped(p);
      PostedShape(p.board, event);
      PublishConsistent(p, Posted(p.board, event), size);
    case Prune(target) => PruneConsistent(p, target, size);
    case PruneProtocol(target) =>
      FinishTargetConsistent(p, target);
      PruneConsistent(FinishTarget(p, target), target, size);
    case Publish => TrimConsistent(p, size);
    case Reset =>
      InitialConsistent(p.root, p.epoch + 1, p.revision + 1);
      TrimConsistent(Producer(p.root, p.epoch + 1, p.revision + 1, 0, false, NO_PROTOCOL, NO_BOARD), size);
  }

  lemma PruneConsistent(p: Producer, target: Id, size: Snapshot -> nat)
    requires Consistent(p)
    ensures target != "" ==> Consistent(PruneTarget(p, target, size))
  {
    hide Consistent, Trimmed, CountBounded, BoardShape, Pruned;
    if target != "" {
      BoardIsShaped(p);
      PrunedShape(p.board, target);
      PublishConsistent(p, Pruned(p.board, target), size);
    }
  }

  lemma {:induction false} RunConsistent(p: Producer, ops: seq<Op>, size: Snapshot -> nat)
    requires Consistent(p)
    ensures Consistent(Run(p, ops, size))
    decreases |ops|
  {
    hide Consistent, Step;
    if ops != [] {
      StepConsistent(p, ops[0], size);
      RunConsistent(Step(p, ops[0], size), ops[1..], size);
    }
  }
}
