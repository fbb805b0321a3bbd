/** The observer's reducers as objects: each method's loops and updates, proved equal to the model. */
module ObserverReducer {
  import opened Wrappers
  import opened OrderedDict
  import opened Observer
  import opened ObserverBounds
  import opened ObserverStream

  // ---------------------------------------------------------------- one iteration of each loop

  lemma UnindexedStep(index: map<Id, set<Key>>, done: set<Id>, t: Id, k: Key)
    requires t in index && t !in done
    ensures var part := Unindexed(index, done, k);
            && t in part
            && Unindexed(index, done + {t}, k) == (if part[t] - {k} == {} then part - {t} else part[t := part[t] - {k}])
  {
    var part, next := Unindexed(index, done, k), Unindexed(index, done + {t}, k);
    assert part[t] == index[t];
    assert forall u :: u != t ==> (u in next <==> u in part);
    assert forall u :: u != t && u in next ==> next[u] == part[u];
  }

  lemma UnindexedNothing(index: map<Id, set<Key>>, k: Key)
    requires forall t :: t in index ==> index[t] != {}
    ensures Unindexed(index, {}, k) == index
  {}

  lemma FinishedNothing(p: Producer, ks: set<Key>, target: Id)
    requires ks == {} && Valid(p.protocol.payloads)
    ensures FinishedIn(p, ks, target) == p
  {
    var x, y := p.protocol, FinishedIn(p, ks, target).protocol;
    assert y.correlations.at == x.correlations.at;
    DropNothing(x.payloads, SettledIn(y.correlations.at, ks));
  }

  lemma FinishedStep(p: Producer, done: set<Key>, k: Key, target: Id)
    requires Valid(p.protocol.payloads) && k in p.protocol.correlations.at && k !in done
    ensures var m := FinishedIn(p, done, target);
            && k in m.protocol.correlations.at && Record(m, k) == Record(p, k)
            && var c := FinishedFor(Record(p, k), target);
               var a := Amended(m, k, c);
               FinishedIn(p, done + {k}, target) ==
               if Settled(c) then a.(protocol := a.protocol.(payloads := Pop(a.protocol.payloads, k))) else a
  {
    var x := p.protocol;
    var m, n := FinishedIn(p, done, target), FinishedIn(p, done + {k}, target);
    var c := FinishedFor(Record(p, k), target);
    assert n.protocol.correlations.at == m.protocol.correlations.at[k := c];
    var at, bt := m.protocol.correlations.at, n.protocol.correlations.at;
    var drop := SettledIn(at, done);
    var more := SettledIn(bt, done + {k});
    assert more == if Settled(c) then drop + {k} else drop;
    DropTwice(x.payloads, drop, {k});
  }

  // ---------------------------------------------------------------- the producer

  class ObserverStateProducer {
    const size: Snapshot -> nat
    const root: Id
    var epoch: nat
    var revision: nat
    var dropped: nat
    var incomplete: bool
    var correlations: Dict<Key, Correlation>
    var payloads: Dict<Key, Invocation>
    var index: map<Id, set<Key>>
    var known: set<Id>
    var paths: Dict<Id, string>
    var work: map<Id, Work>
    var active: Dict<EventKey, Event>
    var tombstones: Dict<EventKey, Event>
    var removed: seq<Id>

    function Model(): Producer
      reads this
    {
      Producer(root, epoch, revision, dropped, incomplete,
               Protocol(correlations, payloads, index, known, paths, work), Board(active, tombstones, removed))
    }

    ghost predicate Valid()
      reads this
    {
      Consistent(Model())
    }

    constructor (root: Id, size: Snapshot -> nat)
      ensures Valid() && Model() == Initial(root) && this.size == size
    {
      this.root, this.size := root, size;
      epoch, revision, dropped, incomplete := 0, 0, 0, false;
      correlations, payloads, index := Empty(), Empty(), map[];
      known, paths, work := {}, Empty(), map[];
      active, tombstones, removed := Empty(), Empty(), [];
      new;
      InitialConsistent(root, 0, 0);
    }

    method MarkCorrelationIncomplete()
      modifies this`incomplete, this`dropped, this`revision
      ensures Model() == MarkIncomplete(old(Model()))
    {
      incomplete, dropped, revision := true, dropped + 1, revision + 1;
    }

    /** Remove the key from the index entries of all given targets. */
    method Unindex(targets: set<Id>, k: Key)
      requires forall t :: t in index ==> index[t] != {}
      requires targets <= index.Keys
      modifies this`index
      ensures index == Unindexed(old(index), targets, k)
    {
      ghost var before := index;
      var rest := targets;
      UnindexedNothing(index, k);
      assert targets - rest == {};
      while rest != {}
        invariant rest <= targets && before == old(index)
        invariant index == Unindexed(before, targets - rest, k)
        decreases rest
      {
        var t :| t in rest;
        UnindexedStep(before, targets - rest, t, k);
        assert targets - (rest - {t}) == targets - rest + {t};
        var keys := index[t] - {k};
        index := if keys == {} then index - {t} else index[t := keys];
        rest := rest - {t};
      }
      assert targets - rest == targets;
    }

    method EvictCorrelation(k: Key)
      requires Linked(Model()) && k in correlations.at
      modifies this`correlations, this`payloads, this`index, this`incomplete, this`dropped, this`revision
      ensures Model() == Evicted(old(Model()), k) && Linked(Model())
    {
      hide Unindexed;
      EvictLinked(Model(), k);
      TargetsIndexed(Model(), k);
      var correlation := correlations.at[k];
      correlations := Pop(correlations, k);
      payloads := Pop(payloads, k);
      Unindex(correlation.targets, k);
      MarkCorrelationIncomplete();
    }

    /** The item's record, created when absent; its key is returned. */
    method Correlation(item: Id, now: int) returns (k: Key)
      requires Linked(Model())
      modifies this`correlations, this`payloads, this`index, this`incomplete, this`dropped, this`revision
      ensures k == KeyOf(old(Model()), item) && Model() == Touched(old(Model()), item, now)
    {
      hide Evicted, Linked;
      k := Key(epoch, root, item);
      if k !in correlations.at {
        while |correlations.keys| >= CORRELATION_LIMIT
          invariant Linked(Model()) && WithRoom(Model()) == WithRoom(old(Model()))
          invariant epoch == old(epoch)
          decreases |correlations.keys|
        {
          FirstPresent(Model());
          EvictLinked(Model(), correlations.keys[0]);
          EvictCorrelation(correlations.keys[0]);
        }
        correlations := Put(correlations, k, Blank(now, incomplete));
      }
    }

    method IndexTarget(k: Key, target: Id)
      requires k in correlations.at
      modifies this`correlations, this`index, this`incomplete, this`dropped, this`revision
      ensures Model() == Indexed(old(Model()), k, target)
    {
      var correlation := correlations.at[k];
      if target !in correlation.targets && |correlation.targets| >= TARGET_LIMIT {
        MarkCorrelationIncomplete();
        return;
      }
      correlations := Put(correlations, k, correlation.(targets := correlation.targets + {target}));
      index := index[target := (if target in index then index[target] else {}) + {k}];
    }

    method EnforcePayloadBounds()
      requires Linked(Model())
      modifies this`correlations, this`payloads, this`incomplete, this`dropped, this`revision
      ensures Model() == PayloadsBounded(old(Model()))
    {
      hide Linked, PayloadRetired;
      var bytes := PayloadBytes();
      while |payloads.keys| > PAYLOAD_LIMIT || bytes > PAYLOAD_MAX_BYTES
        invariant Linked(Model()) && PayloadsBounded(Model()) == PayloadsBounded(old(Model()))
        invariant bytes == TotalBytes(payloads.keys, payloads.at)
        decreases |payloads.keys|
      {
        OldestPayload(Model());
        RetireLinked(Model(), payloads.keys[0]);
        bytes := bytes - payloads.at[payloads.keys[0]].bytes;
        RetirePayload(payloads.keys[0]);
      }
    }

    method PayloadBytes() returns (bytes: nat)
      requires Linked(Model())
      ensures bytes == TotalBytes(payloads.keys, payloads.at)
    {
      bytes := 0;
      for i := 0 to |payloads.keys|
        invariant bytes + TotalBytes(payloads.keys[i..], payloads.at) == TotalBytes(payloads.keys, payloads.at)
      {
        assert payloads.keys[i] in payloads.keys;
        assert payloads.keys[i..][1..] == payloads.keys[i + 1..];
        bytes := bytes + payloads.at[payloads.keys[i]].bytes;
      }
    }

    method RetirePayload(k: Key)
      requires k in correlations.at
      modifies this`correlations, this`payloads, this`incomplete, this`dropped, this`revision
      ensures Model() == PayloadRetired(old(Model()), k)
    {
      payloads := Pop(payloads, k);
      correlations := Put(correlations, k, correlations.at[k].(uncertain := true));
      MarkCorrelationIncomplete();
    }

    method RememberAgent(target: Id, path: Option<string>) returns (ok: bool)
      modifies this`known, this`paths, this`incomplete, this`dropped, this`revision
      ensures Flagged(Model(), ok) == Remembered(old(Model()), target, path)
    {
      if target !in known {
        if |known| >= KNOWN_AGENT_LIMIT {
          var retired := FindIdle();
          if retired.None? {
            MarkCorrelationIncomplete();
            return false;
          }
          ForgetAgent(retired.value);
        }
      }
      AddAgent(target, path);
      return true;
    }

    method ForgetAgent(agent: Id)
      modifies this`known, this`paths, this`incomplete, this`dropped, this`revision
      ensures known == old(known) - {agent} && paths == Pop(old(paths), agent)
      ensures incomplete && dropped == old(dropped) + 1 && revision == old(revision) + 1
    {
      known, paths := known - {agent}, Pop(paths, agent);
      MarkCorrelationIncomplete();
    }

    method AddAgent(target: Id, path: Option<string>)
      modifies this`known, this`paths
      ensures Model() == old(Model()).(protocol := WithPath(old(Model()).protocol, target, path))
    {
      known := known + {target};
      if path.Some? {
        paths := Put(paths, target, path.value);
      }
    }

    method FindIdle() returns (idle: Option<Id>)
      ensures idle == FirstIdle(paths.keys, work)
    {
      for i := 0 to |paths.keys|
        invariant FirstIdle(paths.keys, work) == FirstIdle(paths.keys[i..], work)
      {
        if paths.keys[i] !in work {
          return Some(paths.keys[i]);
        }
        assert paths.keys[i..][1..] == paths.keys[i + 1..];
      }
      return None;
    }

    /** Attribute the target's running work; the caller has settled which turn and request it is. */
    method AssignWork(target: Id, turn: Option<Id>, request: Option<Id>) returns (changed: bool)
      modifies this`known, this`paths, this`incomplete, this`dropped, this`revision, this`work
      ensures Model() == Assigned(old(Model()), target, turn, request).state
      ensures changed == Assigned(old(Model()), target, turn, request).changed
    {
      hide Remembered;
      var ok := RememberAgent(target, None);
      if !ok {
        return false;
      }
      var previous := if target in work then work[target] else Work(None, None);
      var continues := turn.None? || previous.turn.None? || previous.turn == turn;
      var current := Work(if turn.Some? then turn else previous.turn,
                          if request.Some? then request else if continues then previous.request else None);
      changed := target !in work || current != previous;
      work := work[target := current];
    }

    /** `reading` is the target's verified active turn, when the reader has one. */
    method StartWork(target: Id, turn: Option<Id>, request: Option<Id>, reading: Option<Id>, now: int)
      returns (changed: bool)
      requires Valid()
      modifies this
      ensures Valid() && Model() == Step(old(Model()), Start(target, turn, request, reading, now), size)
      ensures changed == StartAgentWork(old(Model()), target, turn, request, reading, now).changed
    {
      hide Consistent, Touched, Assigned, Indexed;
      StepConsistent(Model(), Start(target, turn, request, reading, now), size);
      ConsistentIsLinked(Model());
      if request.None? {
        changed := AssignWork(target, turn, None);
        return;
      }
      TouchConsistent(Model(), request.value, now);
      var k := Correlation(request.value, now);
      changed := StartRequested(k, target, turn, request, reading);
    }

    method StartRequested(k: Key, target: Id, turn: Option<Id>, request: Option<Id>, reading: Option<Id>)
      returns (changed: bool)
      requires k in correlations.at
      modifies this`correlations, this`index, this`known, this`paths, this`incomplete, this`dropped, this`revision,
        this`work
      ensures Started(Model(), changed, StartedOn(old(Model()), k, target, turn, request, reading).credited)
           == StartedOn(old(Model()), k, target, turn, request, reading)
    {
      hide Assigned;
      if Full(correlations.at[k], target) {
        MarkCorrelationIncomplete();
        return false;
      }
      IndexTarget(k, target);
      var c := correlations.at[k];
      if target in c.started || target in c.finished {
        return false;
      }
      if c.uncertain {
        if reading.None? {
          return false;
        }
        changed := AssignWork(target, reading, None);
      } else {
        correlations := Put(correlations, k, c.(started := c.started + {target}));
        changed := AssignWork(target, turn, request);
      }
    }

    method FinishWork(target: Id, turn: Option<Id>, request: Option<Id>) returns (finished: bool)
      requires Valid()
      modifies this`work
      ensures Valid() && Flagged(Model(), finished) == FinishAgentWork(old(Model()), target, turn, request)
    {
      hide Consistent;
      FinishConsistent(Model(), target, turn, request);
      if target !in work {
        return false;
      }
      var current := work[target];
      if turn.Some? && current.turn.Some? && turn != current.turn {
        return false;
      }
      if request.Some? && request != current.request {
        return false;
      }
      work := work - {target};
      return true;
    }

    method RememberAgentActivity(item: Id, e: Observer.Activity, now: int) returns (news: bool)
      requires Valid()
      modifies this
      ensures Valid() && Flagged(Model(), news) == RememberActivity(old(Model()), item, e, now)
    {
      hide Consistent, Touched;
      ActivityConsistent(Model(), item, e, now);
      ConsistentIsLinked(Model());
      TouchConsistent(Model(), item, now);
      if e.thread != root {
        return false;
      }
      var k := Correlation(item, now);
      news := FileActivity(k, e);
    }

    method FileActivity(k: Key, e: Observer.Activity) returns (news: bool)
      requires k in correlations.at
      modifies this`correlations, this`index, this`known, this`paths, this`incomplete, this`dropped, this`revision
      ensures Flagged(Model(), news) == ActivityOn(old(Model()), k, e)
    {
      hide Remembered;
      var c := correlations.at[k];
      if e.agent in c.finished {
        return false;
      }
      if Full(c, e.agent) {
        MarkCorrelationIncomplete();
        return false;
      }
      var ok := RememberAgent(e.agent, Some(e.path));
      if !ok || (e.agent in c.activities && c.activities[e.agent] == e) {
        return false;
      }
      correlations := Put(correlations, k, c.(activities := c.activities[e.agent := e.(attached := false)]));
      IndexTarget(k, e.agent);
      return true;
    }

    method RememberCollaborationInvocation(item: Id, call: Invocation, now: int) returns (news: bool)
      requires Valid()
      modifies this
      ensures Valid() && Flagged(Model(), news) == RememberInvocation(old(Model()), item, call, now)
    {
      hide Consistent, Touched;
      InvocationConsistent(Model(), item, call, now);
      ConsistentIsLinked(Model());
      TouchConsistent(Model(), item, now);
      if call.thread != root {
        return false;
      }
      var k := Correlation(item, now);
      ConsistentIsLinked(Model());
      news := FileInvocation(k, call);
    }

    method FileInvocation(k: Key, call: Invocation) returns (news: bool)
      requires Linked(Model()) && k in correlations.at
      modifies this`correlations, this`index, this`payloads, this`incomplete, this`dropped, this`revision
      ensures Flagged(Model(), news) == InvocationOn(old(Model()), k, call)
    {
      hide Linked, IndexedAll, PayloadsBounded;
      var c := correlations.at[k];
      if call.phase in c.phases || COMPLETED in c.phases {
        return false;
      }
      RecordIsOk(Model(), k);
      AmendLinked(Model(), k, c.(phases := c.phases + {call.phase}));
      correlations := Put(correlations, k, c.(phases := c.phases + {call.phase}));
      IndexReceivers(k, call.receivers);
      var filed := correlations.at[k];
      if !filed.uncertain && !AllFinished(filed) {
        PutPayloadLinked(Model(), k, call);
        payloads := Put(payloads, k, call);
        EnforcePayloadBounds();
      }
      return true;
    }

    method IndexReceivers(k: Key, receivers: seq<Id>)
      requires Linked(Model()) && k in correlations.at
      modifies this`correlations, this`index, this`incomplete, this`dropped, this`revision
      ensures Model() == IndexedAll(old(Model()), k, receivers) && Linked(Model()) && k in correlations.at
    {
      hide Linked, Indexed;
      assert receivers[0..] == receivers;
      for i := 0 to |receivers|
        invariant Linked(Model()) && k in correlations.at
        invariant IndexedAll(Model(), k, receivers[i..]) == IndexedAll(old(Model()), k, receivers)
      {
        assert receivers[i..][1..] == receivers[i + 1..];
        IndexLinked(Model(), k, receivers[i]);
        IndexTarget(k, receivers[i]);
      }
    }

    method Settle(item: Id, now: int)
      requires Linked(Model())
      modifies this`correlations, this`payloads, this`index, this`incomplete, this`dropped, this`revision
      ensures Model() == SettleCorrelation(old(Model()), item, now)
    {
      hide Touched, Linked;
      TouchPresent(Model(), item, now);
      var k := Correlation(item, now);
      if Settled(correlations.at[k]) {
        payloads := Pop(payloads, k);
      }
    }

    method CompleteAgentActivity(item: Id, target: Id, now: int)
      requires Valid()
      modifies this
      ensures Valid() && Model() == CompleteActivity(old(Model()), item, target, now)
    {
      hide Consistent, Touched, SettleCorrelation;
      CompleteConsistent(Model(), item, target, now);
      ConsistentIsLinked(Model());
      TouchConsistent(Model(), item, now);
      var k := Correlation(item, now);
      ConsistentIsLinked(Model());
      RecordIsOk(Model(), k);
      var c := correlations.at[k];
      AmendLinked(Model(), k, c.(completed := c.completed + {target}));
      correlations := Put(correlations, k, c.(completed := c.completed + {target}));
      Settle(item, now);
    }

    /** Finish the target in every record that names it, in any order. */
    method FinishEverywhere(target: Id, now: int)
      requires Linked(Model())
      modifies this`correlations, this`payloads, this`index, this`incomplete, this`dropped, this`revision
      ensures Model() == FinishedIn(old(Model()), KeysMentioning(old(Model()), target), target)
    {
      hide Linked, FinishedIn;
      ghost var before := Model();
      var ks := if target in index then index[target] else {};
      var rest := ks;
      LinkedPayloads(before);
      FinishedNothing(before, ks - rest, target);
      while rest != {}
        invariant rest <= ks && Model() == FinishedIn(before, ks - rest, target)
        decreases rest
      {
        var k :| k in rest;
        MentioningPresent(before, target, k);
        FinishedStep(before, ks - rest, k, target);
        FinishedKeepsLinked(before, ks - rest, k, target);
        assert ks - (rest - {k}) == ks - rest + {k};
        var c := correlations.at[k];
        correlations := Put(correlations, k, FinishedFor(c, target));
        Settle(k.item, now);
        rest := rest - {k};
      }
      assert ks - rest == ks;
    }

    method ExpireProtocolState(now: int) returns (expired: bool)
      requires Valid()
      modifies this
      ensures Valid() && Model() == Step(old(Model()), Expire(now), size)
      ensures expired <==> AnyDue(old(correlations).keys, old(correlations).at, now)
    {
      hide Linked, Evicted, Consistent, Unvisited, AnyDue, ExpiredFrom;
      StepConsistent(Model(), Expire(now), size);
      ConsistentIsLinked(Model());
      var keys, at := correlations.keys, correlations.at;
      expired := false;
      assert keys[0..] == keys;
      AllUnvisited(Model());
      for i := 0 to |keys|
        invariant Linked(Model()) && ExpiredFrom(Model(), keys[i..], now) == ExpiredFrom(old(Model()), keys, now)
        invariant Unvisited(correlations.at, at, keys, i)
        invariant (expired || AnyDue(keys[i..], at, now)) == AnyDue(keys, at, now)
      {
        NextUnvisited(Model(), at, keys, i, now);
        if at[keys[i]].expires <= now {
          EvictLinked(Model(), keys[i]);
          EvictCorrelation(keys[i]);
          expired := true;
        }
      }
      NoneDue(Model(), keys[|keys|..], at, now);
    }

    // -------------------------------------------------------------- the board

    method EnforceBounds()
      requires BoardShape(Board(active, tombstones, removed))
      modifies this`active, this`tombstones, this`removed, this`dropped
      ensures Model() == CountBounded(old(Model()))
    {
      hide BoardShape, PopOldest;
      while |active.keys| + |tombstones.keys| + |removed| > BOARD_LIMIT
        invariant BoardShape(Model().board) && CountBounded(Model()) == CountBounded(old(Model()))
        decreases BoardSize(Model().board)
      {
        DropForCountOk(Model().board);
        if tombstones.keys != [] {
          PopFirstIsOldest(tombstones, Model().board);
          tombstones := Pop(tombstones, tombstones.keys[0]);
        } else if removed != [] {
          removed := removed[1..];
        } else {
          PopFirstIsOldest(active, Model().board);
          active := Pop(active, active.keys[0]);
        }
        dropped := dropped + 1;
      }
    }

    /** Trim to the byte limit and return the complete snapshot. */
    method TakeSnapshot() returns (s: Snapshot)
      requires BoardShape(Board(active, tombstones, removed))
      modifies this`active, this`tombstones, this`removed, this`dropped
      ensures Model() == Trimmed(old(Model()), size) && s == SnapshotValue(Model())
    {
      hide BoardShape, PopOldest, SnapshotValue;
      s := SnapshotValue(Model());
      while size(s) > SNAPSHOT_MAX_BYTES
        invariant BoardShape(Model().board) && Trimmed(Model(), size) == Trimmed(old(Model()), size)
        invariant s == SnapshotValue(Model())
        decreases BoardSize(Model().board)
      {
        if active.keys != [] {
          DropForBytesOk(Model().board);
          PopFirstIsOldest(active, Model().board);
          active := Pop(active, active.keys[0]);
        } else if tombstones.keys != [] {
          DropForBytesOk(Model().board);
          PopFirstIsOldest(tombstones, Model().board);
          tombstones := Pop(tombstones, tombstones.keys[0]);
        } else if removed != [] {
          DropForBytesOk(Model().board);
          removed := removed[1..];
        } else {
          break;
        }
        dropped := dropped + 1;
        s := SnapshotValue(Model());
      }
    }

    /** Advance the revision past a changed board and publish it. */
    method PublishBoard() returns (s: Snapshot)
      requires BoardShape(Board(active, tombstones, removed))
      modifies this`active, this`tombstones, this`removed, this`dropped, this`revision
      ensures Model() == Trimmed(CountBounded(Advanced(old(Model()))), size) && s == SnapshotValue(Model())
    {
      hide BoardShape, CountBounded, Trimmed, SnapshotValue;
      revision := revision + 1;
      CountBoundedOk(Model());
      EnforceBounds();
      CountIsShaped(Model().board);
      s := TakeSnapshot();
    }

    method PostEvent(e: Event) returns (s: Snapshot)
      requires Valid()
      modifies this
      ensures Valid() && Model() == Step(old(Model()), Post(e), size) && s == SnapshotValue(Model())
    {
      hide Consistent, BoardShape, CountBounded, Trimmed, SnapshotValue, Posted;
      StepConsistent(Model(), Post(e), size);
      BoardIsShaped(Model());
      PostedShape(Model().board, e);
      FileEvent(e);
      s := PublishBoard();
    }

    method FileEvent(e: Event)
      modifies this`active, this`tombstones, this`removed
      ensures Model() == old(Model()).(board := Posted(old(Model()).board, e))
    {
      var key, target := StateKey(e), EventTarget(e);
      if target.Some? {
        removed := Without(removed, {target.value});
      }
      if Terminal(e) {
        active, tombstones := Pop(active, key), Put(Pop(tombstones, key), key, e);
      } else {
        active, tombstones := Put(Pop(active, key), key, e), Pop(tombstones, key);
      }
    }

    /** An empty target id is refused and nothing changes. */
    method PruneAgent(target: Id) returns (s: Result<Snapshot, string>)
      requires Valid()
      modifies this
      ensures Valid() && Model() == Step(old(Model()), Prune(target), size)
      ensures s == if target == "" then Failure("observer target thread ID must be non-empty")
                   else Success(SnapshotValue(Model()))
    {
      hide Consistent, BoardShape, CountBounded, Trimmed, SnapshotValue, Pruned;
      StepConsistent(Model(), Prune(target), size);
      if target == "" {
        return Failure("observer target thread ID must be non-empty");
      }
      BoardIsShaped(Model());
      PrunedShape(Model().board, target);
      EraseTarget(target);
      var published := PublishBoard();
      return Success(published);
    }

    method EraseTarget(target: Id)
      modifies this`active, this`tombstones, this`removed
      ensures Model() == old(Model()).(board := Pruned(old(Model()).board, target))
    {
      hide PrunedFrom;
      active := PruneCollection(active, target);
      tombstones := PruneCollection(tombstones, target);
      removed := Without(removed, {target}) + [target];
    }

    method PruneProtocolTarget(target: Id, now: int) returns (s: Result<Snapshot, string>)
      requires Valid()
      modifies this
      ensures Valid() && Model() == Step(old(Model()), PruneProtocol(target), size)
      ensures s == if target == "" then Failure("observer target thread ID must be non-empty")
                   else Success(SnapshotValue(Model()))
    {
      hide Consistent, PruneTarget, FinishedIn, FinishAgentWork, SnapshotValue;
      FinishTargetConsistent(Model(), target);
      var finished := FinishWork(target, None, None);
      ConsistentIsLinked(Model());
      FinishEverywhere(target, now);
      s := PruneAgent(target);
    }

    method ResetConnection() returns (s: Snapshot)
      requires Valid()
      modifies this
      ensures Valid() && Model() == Step(old(Model()), Reset, size) && s == SnapshotValue(Model())
    {
      hide Consistent, BoardShape, Trimmed, SnapshotValue;
      StepConsistent(Model(), Reset, size);
      InitialConsistent(root, epoch + 1, revision + 1);
      ClearProtocolState();
      ClearBoard();
      BoardIsShaped(Model());
      s := TakeSnapshot();
    }

    method ClearProtocolState()
      modifies this`known, this`paths, this`work, this`payloads, this`correlations, this`index, this`incomplete
      ensures Model().protocol == NO_PROTOCOL && !incomplete
    {
      known, paths, work := {}, Empty(), map[];
      correlations, payloads, index, incomplete := Empty(), Empty(), map[], false;
    }

    method ClearBoard()
      modifies this`epoch, this`revision, this`active, this`tombstones, this`removed, this`dropped
      ensures Model().board == NO_BOARD && dropped == 0 && epoch == old(epoch) + 1 && revision == old(revision) + 1
    {
      epoch, revision, dropped := epoch + 1, revision + 1, 0;
      active, tombstones, removed := Empty(), Empty(), [];
    }
  }

  /** Visit every event retained at the start: drop the target from its receivers, or drop the event. */
  method PruneCollection(d: Dict<EventKey, Event>, target: Id) returns (r: Dict<EventKey, Event>)
    ensures r == PrunedFrom(d, d.keys, target)
  {
    r := d;
    assert d.keys[0..] == d.keys;
    for i := 0 to |d.keys|
      invariant PrunedFrom(r, d.keys[i..], target) == PrunedFrom(d, d.keys, target)
    {
      assert d.keys[i..][1..] == d.keys[i + 1..];
      var key := d.keys[i];
      if key in r.at && Mentions(r.at[key], target) {
        var remaining := Without(Receivers(r.at[key]), {target});
        r := if remaining != [] then Put(r, key, PrunedEvent(r.at[key], target)) else Pop(r, key);
      }
    }
  }

  lemma PopFirstIsOldest(d: Dict<EventKey, Event>, b: Board)
    requires BoardShape(b) && (d == b.active || d == b.tombstones) && d.keys != []
    ensures Pop(d, d.keys[0]) == PopOldest(d)
  {
    PopFirst(d);
  }

  lemma CountIsShaped(b: Board)
    requires BoardOk(b)
    ensures BoardShape(b)
  {}

  // ---------------------------------------------------------------- the consumer

  /** What a snapshot changed for the view. */
  datatype Delta = Delta(
    epochChanged: bool, stateReplaced: bool, upserted: seq<Event>, ended: seq<Event>, removed: set<Id>)

  const NO_DELTA := Delta(false, false, [], [], {})

  /** The incoming events that the prior dictionary did not hold unchanged. */
  function Changed(prior: map<EventKey, Event>, keys: seq<EventKey>, at: map<EventKey, Event>): (r: seq<Event>)
    requires forall k :: k in keys ==> k in at
    ensures forall e :: e in r <==> exists k :: k in keys && at[k] == e && (k !in prior || prior[k] != e)
  {
    if keys == [] then []
    else
      var rest := Changed(prior, keys[1..], at);
      if keys[0] in prior && prior[keys[0]] == at[keys[0]] then rest else [at[keys[0]]] + rest
  }

  class ObserverStateConsumer {
    var epoch: int
    var revision: int
    var active: Dict<EventKey, Event>
    var tombstones: Dict<EventKey, Event>
    var removed: seq<Id>
    var dropped: int

    function Model(): Consumer
      reads this
    {
      Consumer(epoch, revision, active, tombstones, removed, dropped)
    }

    constructor ()
      ensures Model() == FRESH
    {
      epoch, revision, dropped := -1, -1, 0;
      active, tombstones, removed := Empty(), Empty(), [];
    }

    method ConsumeSnapshot(s: Snapshot) returns (delta: Delta)
      modifies this
      ensures Model() == Consumed(old(Model()), s)
      ensures Model() == old(Model()) ==> delta == NO_DELTA
      ensures Model() != old(Model()) ==>
        && delta.epochChanged == (epoch != old(epoch))
        && delta.stateReplaced == (epoch != old(epoch) || dropped > old(dropped))
        && (forall e :: e in delta.upserted <==>
             exists k :: k in active.keys && k in active.at && active.at[k] == e
               && (delta.stateReplaced || k !in old(active).at || old(active).at[k] != e))
        && (forall e :: e in delta.ended <==>
             exists k :: k in tombstones.keys && k in tombstones.at && tombstones.at[k] == e
               && (delta.stateReplaced || k !in old(tombstones).at || old(tombstones).at[k] != e))
        && (forall t :: t in delta.removed <==> t in removed && (delta.stateReplaced || t !in old(removed)))
    {
      hide Collected, Targets;
      var parsed := Parsed(s);
      if parsed.None? {
        return NO_DELTA;
      }
      var n := parsed.value;
      if n.epoch < epoch || (n.epoch == epoch && n.revision <= revision) {
        return NO_DELTA;
      }
      if n.epoch == epoch && n.dropped < dropped {
        return NO_DELTA;
      }
      CollectedValid(Empty(), s.events);
      CollectedValid(Empty(), s.tombstones);
      delta := CompareWith(n);
      epoch, revision, dropped := n.epoch, n.revision, n.dropped;
      active, tombstones, removed := n.active, n.tombstones, n.removed;
    }

    /** What replacing the current state by `n` changes; after a loss or in a new epoch nothing is comparable. */
    method CompareWith(n: Consumer) returns (delta: Delta)
      requires Valid(n.active) && Valid(n.tombstones)
      ensures delta.epochChanged == (n.epoch != epoch)
      ensures delta.stateReplaced == (n.epoch != epoch || n.dropped > dropped)
      ensures forall e :: e in delta.upserted <==>
        exists k :: k in n.active.keys && k in n.active.at && n.active.at[k] == e
          && (delta.stateReplaced || k !in active.at || active.at[k] != e)
      ensures forall e :: e in delta.ended <==>
        exists k :: k in n.tombstones.keys && k in n.tombstones.at && n.tombstones.at[k] == e
          && (delta.stateReplaced || k !in tombstones.at || tombstones.at[k] != e)
      ensures forall t :: t in delta.removed <==> t in n.removed && (delta.stateReplaced || t !in removed)
    {
      var replaced := n.epoch != epoch || n.dropped > dropped;
      var priorActive := if replaced then map[] else active.at;
      var priorTombstones := if replaced then map[] else tombstones.at;
      var priorRemoved := if replaced then [] else removed;
      delta := Delta(n.epoch != epoch, replaced, Changed(priorActive, n.active.keys, n.active.at),
                     Changed(priorTombstones, n.tombstones.keys, n.tombstones.at),
                     set t | t in n.removed && t !in priorRemoved);
    }
  }

  lemma {:induction false} CollectedValid(d: Dict<EventKey, Event>, events: seq<Event>)
    requires Valid(d)
    ensures Collected(d, events).Some? ==> Valid(Collected(d, events).value)
    decreases |events|
  {
    if events != [] {
      PutValid(d, StateKey(events[0]), events[0]);
      CollectedValid(Put(d, StateKey(events[0]), events[0]), events[1..]);
    }
  }

  predicate AnyDue(keys: seq<Key>, at: map<Key, Correlation>, now: int) {
    exists k :: k in keys && k in at && at[k].expires <= now
  }

  /** The records listed from `i` on are still the ones seen at the start of the pass. */
  predicate Unvisited(current: map<Key, Correlation>, at: map<Key, Correlation>, keys: seq<Key>, i: nat) {
    && Distinct(keys)
    && forall j :: i <= j < |keys| ==> keys[j] in current && keys[j] in at && current[keys[j]] == at[keys[j]]
  }

  lemma AllUnvisited(p: Producer)
    requires Linked(p)
    ensures var d := p.protocol.correlations; Unvisited(d.at, d.at, d.keys, 0)
  {
    var d := p.protocol.correlations;
    assert forall j :: 0 <= j < |d.keys| ==> d.keys[j] in d.keys;
  }

  lemma NextUnvisited(p: Producer, at: map<Key, Correlation>, keys: seq<Key>, i: nat, now: int)
    requires i < |keys| && Unvisited(p.protocol.correlations.at, at, keys, i)
    ensures keys[i] in at && keys[i] in p.protocol.correlations.at
    ensures Unvisited(p.protocol.correlations.at, at, keys, i + 1)
    ensures Unvisited(Evicted(p, keys[i]).protocol.correlations.at, at, keys, i + 1)
    ensures ExpiredFrom(p, keys[i..], now)
         == ExpiredFrom(if at[keys[i]].expires <= now then Evicted(p, keys[i]) else p, keys[i + 1..], now)
    ensures AnyDue(keys[i..], at, now) <==> at[keys[i]].expires <= now || AnyDue(keys[i + 1..], at, now)
  {
    hide Unindexed;
    assert keys[i..][1..] == keys[i + 1..];
    assert keys[i..][0] == keys[i];
    assert keys[i] in keys[i..];
    assert forall k :: k in keys[i..] <==> k == keys[i] || k in keys[i + 1..];
  }

  lemma NoneDue(p: Producer, keys: seq<Key>, at: map<Key, Correlation>, now: int)
    requires keys == []
    ensures !AnyDue(keys, at, now) && ExpiredFrom(p, keys, now) == p
  {}

  lemma TargetsIndexed(p: Producer, k: Key)
    requires Linked(p) && k in p.protocol.correlations.at
    ensures Record(p, k).targets <= p.protocol.index.Keys
    ensures forall t :: t in p.protocol.index ==> p.protocol.index[t] != {}
  {
    forall t | t in Record(p, k).targets ensures t in p.protocol.index {
      assert InTargets(p.protocol, t, k);
    }
  }

  lemma FirstPresent(p: Producer)
    requires Linked(p) && p.protocol.correlations.keys != []
    ensures p.protocol.correlations.keys[0] in p.protocol.correlations.at
  {
    assert p.protocol.correlations.keys[0] in p.protocol.correlations.keys;
  }

  lemma ConsistentIsLinked(p: Producer)
    requires Consistent(p)
    ensures Linked(p)
  {}

  lemma OldestPayload(p: Producer)
    requires Linked(p) && !PayloadsFit(p.protocol.payloads)
    ensures p.protocol.payloads.keys != []
    ensures var x := p.protocol.payloads;
            && x.keys[0] in x.at && x.keys[0] in p.protocol.correlations.at
            && |Pop(x, x.keys[0]).keys| < |x.keys|
            && TotalBytes(Pop(x, x.keys[0]).keys, Pop(x, x.keys[0]).at)
              == TotalBytes(x.keys, x.at) - x.at[x.keys[0]].bytes
  {
    var x := p.protocol.payloads;
    assert x.keys[0] in x.keys;
    PopFirst(x);
    BytesSame(x.keys[1..], x.at, x.keys[0]);
  }

  lemma {:induction false} BytesSame(keys: seq<Key>, at: map<Key, Invocation>, k: Key)
    requires k !in keys
    ensures TotalBytes(keys, at - {k}) == TotalBytes(keys, at)
  {
    if keys != [] {
      BytesSame(keys[1..], at, k);
    }
  }

  lemma LinkedPayloads(p: Producer)
    requires Linked(p)
    ensures Valid(p.protocol.payloads)
  {}

  lemma TouchPresent(p: Producer, item: Id, now: int)
    ensures KeyOf(p, item) in Touched(p, item, now).protocol.correlations.at
  {
    hide WithRoom;
    RoomTicks(p);
    RoomRoot(p);
  }

  lemma {:induction false} RoomRoot(p: Producer)
    ensures WithRoom(p).root == p.root && WithRoom(p).epoch == p.epoch
    decreases |p.protocol.correlations.keys|
  {
    if |p.protocol.correlations.keys| >= CORRELATION_LIMIT {
      RoomRoot(Evicted(p, p.protocol.correlations.keys[0]));
    }
  }

  lemma MentioningPresent(p: Producer, target: Id, k: Key)
    requires Linked(p) && k in KeysMentioning(p, target)
    ensures k in p.protocol.correlations.at && k == KeyOf(p, k.item) && target in Record(p, k).targets
  {
    assert InIndex(p.protocol, target, k);
  }

  lemma FinishedKeepsLinked(p: Producer, done: set<Key>, k: Key, target: Id)
    requires Linked(p) && done <= KeysMentioning(p, target) && k in KeysMentioning(p, target)
    requires k in p.protocol.correlations.at && k !in done
    ensures var m := FinishedIn(p, done, target);
            && k in m.protocol.correlations.at
            && Linked(Amended(m, k, FinishedFor(Record(p, k), target)))
            && KeyOf(m, k.item) == k
  {
    hide FinishedIn, IndexExact, PayloadsLinked, RecordsOk, RecordOk;
    LinkedPayloads(p);
    FinishedStep(p, done, k, target);
    var m := FinishedIn(p, done, target);
    FinishedLinked(p, done, target);
    MentioningPresent(p, target, k);
    FinishedRecordOk(p, k, target);
    AmendLinked(m, k, FinishedFor(Record(p, k), target));
  }

  lemma FinishedRecordOk(p: Producer, k: Key, target: Id)
    requires Linked(p) && k in p.protocol.correlations.at && target in Record(p, k).targets
    ensures RecordOk(FinishedFor(Record(p, k), target))
  {}

  lemma FinishedLinked(p: Producer, done: set<Key>, target: Id)
    requires Linked(p) && done <= KeysMentioning(p, target)
    ensures var m := FinishedIn(p, done, target); Linked(m) && m.epoch == p.epoch && m.root == p.root
  {
    var m := FinishedIn(p, done, target);
    forall k | k in done ensures InTargets(p.protocol, target, k) {
      assert InIndex(p.protocol, target, k);
    }
    FinishedTargets(p, done, target);
    DropValid(p.protocol.payloads, SettledIn(m.protocol.correlations.at, done));
  }
}
