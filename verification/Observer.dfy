/**
 The observer's producer: which request started which agent's work, remembered in bounded memory.

 A value model of every producer operation. Forgetting a record (the 512-record limit, expiry, a
 retired payload, a full target list) marks the history incomplete until the epoch is reset, and a
 record created afterwards is uncertain. The theorems say what that buys over whole runs.
 */
module Observer {
  import opened Wrappers
  import opened OrderedDict

  const CORRELATION_LIMIT := 512
  const PAYLOAD_LIMIT := 128
  const PAYLOAD_MAX_BYTES := 512 * 1024
  const RETENTION := 300
  const TARGET_LIMIT := 64
  const KNOWN_AGENT_LIMIT := 256
  const BOARD_LIMIT := 64
  const SNAPSHOT_MAX_BYTES := 256 * 1024 - 256
  const COMPLETED := "item/completed"

  type Id = string

  /** The identity of one request: connection epoch, root thread, item. */
  datatype Key = Key(epoch: nat, root: Id, item: Id)

  /** An agent's activity; `attached` says that it carries a collaboration invocation. */
  datatype Activity = Activity(thread: Id, agent: Id, path: string, attached: bool, body: int)

  /** A collaboration invocation; `bytes` is the size of its encoding. */
  datatype Invocation = Invocation(thread: Id, phase: string, receivers: seq<Id>, bytes: nat, body: int)

  datatype Correlation = Correlation(
    expires: int, uncertain: bool, targets: set<Id>, finished: set<Id>, started: set<Id>,
    contextSent: set<Id>, completed: set<Id>, activities: map<Id, Activity>, phases: set<string>)

  datatype Work = Work(turn: Option<Id>, request: Option<Id>)

  datatype Protocol = Protocol(
    correlations: Dict<Key, Correlation>, payloads: Dict<Key, Invocation>, index: map<Id, set<Key>>,
    known: set<Id>, paths: Dict<Id, string>, work: map<Id, Work>)

  datatype Producer = Producer(
    root: Id, epoch: nat, revision: nat, dropped: nat, incomplete: bool, protocol: Protocol, board: Board)

  const NO_PROTOCOL := Protocol(Empty(), Empty(), map[], {}, Empty(), map[])
  const NO_BOARD := Board(Empty(), Empty(), [])

  function Initial(root: Id): Producer {
    Producer(root, 0, 0, 0, false, NO_PROTOCOL, NO_BOARD)
  }

  // ---------------------------------------------------------------- correlation records

  function KeyOf(p: Producer, item: Id): Key {
    Key(p.epoch, p.root, item)
  }

  function Blank(now: int, uncertain: bool): Correlation {
    Correlation(now + RETENTION, uncertain, {}, {}, {}, {}, {}, map[], {})
  }

  function Record(p: Producer, k: Key): Correlation {
    if k in p.protocol.correlations.at then p.protocol.correlations.at[k] else Blank(0, true)
  }

  function MarkIncomplete(p: Producer): Producer {
    p.(incomplete := true, dropped := p.dropped + 1, revision := p.revision + 1)
  }

  /** The target index without `k` under the listed targets; empty sets disappear. */
  function Unindexed(index: map<Id, set<Key>>, targets: set<Id>, k: Key): map<Id, set<Key>> {
    map t | t in index && (t in targets ==> index[t] - {k} != {}) :: if t in targets then index[t] - {k} else index[t]
  }

  function Evicted(p: Producer, k: Key): Producer {
    var x := p.protocol;
    MarkIncomplete(p.(protocol := x.(
      correlations := Pop(x.correlations, k), payloads := Pop(x.payloads, k),
      index := Unindexed(x.index, Record(p, k).targets, k))))
  }

  /** Evict from the oldest record on until there is room for one more. */
  function WithRoom(p: Producer): Producer
    decreases |p.protocol.correlations.keys|
  {
    if |p.protocol.correlations.keys| < CORRELATION_LIMIT then p
    else
      WithRoom(Evicted(p, p.protocol.correlations.keys[0]))
  }

  /** The producer once the item has a record. */
  function Touched(p: Producer, item: Id, now: int): Producer {
    if KeyOf(p, item) in p.protocol.correlations.at then p
    else
      var q := WithRoom(p);
      Amended(q, KeyOf(q, item), Blank(now, q.incomplete))
  }

  function Amended(p: Producer, k: Key, c: Correlation): Producer {
    p.(protocol := p.protocol.(correlations := Put(p.protocol.correlations, k, c)))
  }

  predicate Full(c: Correlation, target: Id) {
    target !in c.targets && |c.targets| >= TARGET_LIMIT
  }

  function IndexAdded(index: map<Id, set<Key>>, target: Id, k: Key): map<Id, set<Key>> {
    index[target := (if target in index then index[target] else {}) + {k}]
  }

  function Indexed(p: Producer, k: Key, target: Id): Producer {
    var c := Record(p, k);
    if Full(c, target) then MarkIncomplete(p)
    else
      var q := Amended(p, k, c.(targets := c.targets + {target}));
      q.(protocol := q.protocol.(index := IndexAdded(q.protocol.index, target, k)))
  }

  function IndexedAll(p: Producer, k: Key, targets: seq<Id>): Producer
    decreases |targets|
  {
    if targets == [] then p else IndexedAll(Indexed(p, k, targets[0]), k, targets[1..])
  }

  function TotalBytes(keys: seq<Key>, at: map<Key, Invocation>): nat {
    if keys == [] then 0 else (if keys[0] in at then at[keys[0]].bytes else 0) + TotalBytes(keys[1..], at)
  }

  predicate PayloadsFit(payloads: Dict<Key, Invocation>) {
    |payloads.keys| <= PAYLOAD_LIMIT && TotalBytes(payloads.keys, payloads.at) <= PAYLOAD_MAX_BYTES
  }

  /** Retire the oldest payload and doubt its record. */
  function PayloadRetired(p: Producer, k: Key): Producer {
    var q := Amended(p, k, Record(p, k).(uncertain := true));
    MarkIncomplete(q.(protocol := q.protocol.(payloads := Pop(q.protocol.payloads, k))))
  }

  function PayloadsBounded(p: Producer): Producer
    decreases |p.protocol.payloads.keys|
  {
    if PayloadsFit(p.protocol.payloads) || p.protocol.payloads.keys == [] then p
    else
      PayloadsBounded(PayloadRetired(p, p.protocol.payloads.keys[0]))
  }

  // ---------------------------------------------------------------- agents

  /** The first agent with a path and no running work. */
  function FirstIdle(paths: seq<Id>, work: map<Id, Work>): Option<Id> {
    if paths == [] then None
    else if paths[0] !in work then Some(paths[0])
    else FirstIdle(paths[1..], work)
  }

  datatype Flagged = Flagged(state: Producer, flag: bool)

  function WithPath(x: Protocol, target: Id, path: Option<string>): Protocol {
    x.(known := x.known + {target}, paths := if path.Some? then Put(x.paths, target, path.value) else x.paths)
  }

  function Remembered(p: Producer, target: Id, path: Option<string>): Flagged {
    var x := p.protocol;
    if target in x.known || |x.known| < KNOWN_AGENT_LIMIT then
      Flagged(p.(protocol := WithPath(x, target, path)), true)
    else
      var idle := FirstIdle(x.paths.keys, x.work);
      if idle.None? then Flagged(MarkIncomplete(p), false)
      else
        var retired := x.(known := x.known - {idle.value}, paths := Pop(x.paths, idle.value));
        Flagged(MarkIncomplete(p).(protocol := WithPath(retired, target, path)), true)
  }

  /** The result of a start; `credited` is the request the work was attributed to by this call. */
  datatype Started = Started(state: Producer, changed: bool, credited: Option<Id>)

  function NextWork(previous: Work, turn: Option<Id>, request: Option<Id>): Work {
    var continues := turn.None? || previous.turn.None? || previous.turn == turn;
    Work(if turn.Some? then turn else previous.turn,
         if request.Some? then request else if continues then previous.request else None)
  }

  function Assigned(p: Producer, target: Id, turn: Option<Id>, request: Option<Id>): Started {
    var r := Remembered(p, target, None);
    if !r.flag then Started(r.state, false, None)
    else
      var x := r.state.protocol;
      var previous := if target in x.work then x.work[target] else Work(None, None);
      var current := NextWork(previous, turn, request);
      Started(r.state.(protocol := x.(work := x.work[target := current])),
              target !in x.work || current != previous, request)
  }

  /** `reading` is the target's verified active turn, when it is available. */
  function StartAgentWork(
    p: Producer, target: Id, turn: Option<Id>, request: Option<Id>, reading: Option<Id>, now: int
  ): Started
  {
    if request.None? then Assigned(p, target, turn, None)
    else
      StartedOn(Touched(p, request.value, now), KeyOf(p, request.value), target, turn, request, reading)
  }

  /** A start for the retained record `k` of the request. */
  function StartedOn(
    q: Producer, k: Key, target: Id, turn: Option<Id>, request: Option<Id>, reading: Option<Id>
  ): Started
  {
    if Full(Record(q, k), target) then Started(MarkIncomplete(q), false, None)
    else
      var r := Indexed(q, k, target);
      var c := Record(r, k);
      if target in c.started || target in c.finished then Started(r, false, None)
      else if !c.uncertain then
        Assigned(Amended(r, k, c.(started := c.started + {target})), target, turn, request)
      else if reading.None? then Started(r, false, None)
      else Assigned(r, target, reading, None)
  }

  function FinishAgentWork(p: Producer, target: Id, turn: Option<Id>, request: Option<Id>): Flagged {
    var x := p.protocol;
    if target !in x.work then Flagged(p, false)
    else if turn.Some? && x.work[target].turn.Some? && turn != x.work[target].turn then Flagged(p, false)
    else if request.Some? && request != x.work[target].request then Flagged(p, false)
    else Flagged(p.(protocol := x.(work := x.work - {target})), true)
  }

  // ---------------------------------------------------------------- activities and invocations

  function RememberActivity(p: Producer, item: Id, e: Activity, now: int): Flagged {
    if e.thread != p.root then Flagged(p, false)
    else
      ActivityOn(Touched(p, item, now), KeyOf(p, item), e)
  }

  function ActivityOn(q: Producer, k: Key, e: Activity): Flagged {
    var c := Record(q, k);
    if e.agent in c.finished then Flagged(q, false)
    else if Full(c, e.agent) then Flagged(MarkIncomplete(q), false)
    else
      var r := Remembered(q, e.agent, Some(e.path));
      if !r.flag || (e.agent in c.activities && c.activities[e.agent] == e) then Flagged(r.state, false)
      else
        var kept := c.(activities := c.activities[e.agent := e.(attached := false)]);
        Flagged(Indexed(Amended(r.state, k, kept), k, e.agent), true)
  }

  predicate AllFinished(c: Correlation) {
    c.targets != {} && c.targets <= c.finished
  }

  function RememberInvocation(p: Producer, item: Id, call: Invocation, now: int): Flagged {
    if call.thread != p.root then Flagged(p, false)
    else
      InvocationOn(Touched(p, item, now), KeyOf(p, item), call)
  }

  function InvocationOn(q: Producer, k: Key, call: Invocation): Flagged {
    var c := Record(q, k);
    if call.phase in c.phases || COMPLETED in c.phases then Flagged(q, false)
    else
      var r := IndexedAll(Amended(q, k, c.(phases := c.phases + {call.phase})), k, call.receivers);
      if Record(r, k).uncertain || AllFinished(Record(r, k)) then Flagged(r, true)
      else
        var kept := r.(protocol := r.protocol.(payloads := Put(r.protocol.payloads, k, call)));
        Flagged(PayloadsBounded(kept), true)
  }

  predicate Settled(c: Correlation) {
    c.targets != {} && (c.targets <= c.finished || (COMPLETED in c.phases && c.targets <= c.finished + c.completed))
  }

  function SettleCorrelation(p: Producer, item: Id, now: int): Producer {
    var q := Touched(p, item, now);
    var k := KeyOf(p, item);
    if Settled(Record(q, k)) then q.(protocol := q.protocol.(payloads := Pop(q.protocol.payloads, k))) else q
  }

  function CompleteActivity(p: Producer, item: Id, target: Id, now: int): Producer {
    var q := Touched(p, item, now);
    var k := KeyOf(p, item);
    var c := Record(q, k);
    SettleCorrelation(Amended(q, k, c.(completed := c.completed + {target})), item, now)
  }

  function MarkContextSent(p: Producer, item: Id, target: Id, now: int): Producer {
    var q := Touched(p, item, now);
    var k := KeyOf(p, item);
    var c := Record(q, k);
    Amended(q, k, c.(contextSent := c.contextSent + {target}))
  }

  function FinishedFor(c: Correlation, target: Id): Correlation {
    c.(finished := c.finished + {target}, activities := c.activities - {target})
  }

  function SettledIn(at: map<Key, Correlation>, ks: set<Key>): set<Key> {
    set k | k in ks && k in at && Settled(at[k])
  }

  /** The listed records finished for the target, with the payloads that are thereby settled dropped. */
  function FinishedIn(p: Producer, ks: set<Key>, target: Id): Producer {
    var x := p.protocol;
    var at := map k | k in x.correlations.at ::
      if k in ks then FinishedFor(x.correlations.at[k], target) else x.correlations.at[k];
    p.(protocol := x.(
      correlations := Dict(x.correlations.keys, at),
      payloads := Drop(x.payloads, SettledIn(at, ks))))
  }

  function KeysMentioning(p: Producer, target: Id): set<Key> {
    if target in p.protocol.index then p.protocol.index[target] else {}
  }

  function FinishTarget(p: Producer, target: Id): Producer {
    var q := FinishAgentWork(p, target, None, None).state;
    FinishedIn(q, KeysMentioning(q, target), target)
  }

  /** One pass over the records present at the start, oldest first. */
  function ExpiredFrom(p: Producer, keys: seq<Key>, now: int): Producer
    decreases |keys|
  {
    if keys == [] then p
    else
      var q := if keys[0] in p.protocol.correlations.at && p.protocol.correlations.at[keys[0]].expires <= now
               then Evicted(p, keys[0]) else p;
      ExpiredFrom(q, keys[1..], now)
  }

  // ---------------------------------------------------------------- the published board

  /** An event's item; an absent or non-text id is the empty string. */
  datatype Item = Item(id: Id, agent: Id, receivers: Option<seq<Id>>, ended: bool, body: int)

  /** A projected event; `schema` says that it carries the observer schema. */
  datatype Event = Event(
    schema: bool, kind: string, completed: bool, target: Id, thread: Id, activityItem: Id, item: Option<Item>,
    body: int)

  datatype EventKey = EventKey(thread: Id, item: Id, kind: string)

  datatype Board = Board(active: Dict<EventKey, Event>, tombstones: Dict<EventKey, Event>, removed: seq<Id>)

  datatype Snapshot = Snapshot(
    schema: bool, epoch: int, revision: int, events: seq<Event>, tombstones: seq<Event>, removed: seq<Id>,
    dropped: int, complete: bool)

  function OrGlobal(thread: Id): Id {
    if thread == "" then "global" else thread
  }

  function EventThread(e: Event): Id {
    if e.item.Some? && e.kind == "app_server_subagent_activity" && e.item.value.agent != "" then e.item.value.agent
    else if e.target != "" then e.target
    else e.thread
  }

  function StateKey(e: Event): EventKey {
    if e.item.Some? && e.item.value.id != "" then EventKey(OrGlobal(EventThread(e)), e.item.value.id, e.kind)
    else if e.activityItem != "" then EventKey(OrGlobal(EventThread(e)), e.activityItem, e.kind)
    else if e.kind == "trace_published" then EventKey("global", "latest", e.kind)
    else EventKey(OrGlobal(EventThread(e)), "latest", e.kind)
  }

  function EventTarget(e: Event): Option<Id> {
    if e.target != "" then Some(e.target)
    else if e.item.Some? && e.item.value.agent != "" then Some(e.item.value.agent)
    else if e.thread != "" then Some(e.thread)
    else None
  }

  predicate Terminal(e: Event) {
    e.completed || (e.item.Some? && e.item.value.ended)
  }

  function Receivers(e: Event): seq<Id> {
    if e.item.Some? && e.item.value.receivers.Some? then e.item.value.receivers.value else []
  }

  predicate Mentions(e: Event, target: Id) {
    EventTarget(e) == Some(target) || target in Receivers(e)
  }

  function PrunedEvent(e: Event, target: Id): Event
    requires e.item.Some?
  {
    e.(item := Some(e.item.value.(receivers := Some(Without(Receivers(e), {target})))))
  }

  function PrunedAt(d: Dict<EventKey, Event>, k: EventKey, target: Id): Dict<EventKey, Event> {
    if k !in d.at || !Mentions(d.at[k], target) then d
    else if Without(Receivers(d.at[k]), {target}) != [] then Put(d, k, PrunedEvent(d.at[k], target))
    else Pop(d, k)
  }

  function PrunedFrom(d: Dict<EventKey, Event>, keys: seq<EventKey>, target: Id): Dict<EventKey, Event>
    decreases |keys|
  {
    if keys == [] then d else PrunedFrom(PrunedAt(d, keys[0], target), keys[1..], target)
  }

  function BoardSize(b: Board): nat {
    |b.active.keys| + |b.tombstones.keys| + |b.removed|
  }

  function Rest<T>(s: seq<T>): seq<T> {
    if s == [] then [] else s[1..]
  }

  function PopOldest<K, V>(d: Dict<K, V>): Dict<K, V> {
    if d.keys == [] then d else Dict(d.keys[1..], d.at - {d.keys[0]})
  }

  /** What the event limit drops first: tombstones, then removed targets, then active events. */
  function DropForCount(b: Board): Board {
    if b.tombstones.keys != [] then b.(tombstones := PopOldest(b.tombstones))
    else if b.removed != [] then b.(removed := Rest(b.removed))
    else b.(active := PopOldest(b.active))
  }

  function CountBounded(p: Producer): Producer
    decreases BoardSize(p.board)
  {
    if BoardSize(p.board) <= BOARD_LIMIT then p
    else CountBounded(p.(board := DropForCount(p.board), dropped := p.dropped + 1))
  }

  /** What the byte limit drops first: active events, then tombstones, then removed targets. */
  function DropForBytes(b: Board): Board {
    if b.active.keys != [] then b.(active := PopOldest(b.active))
    else if b.tombstones.keys != [] then b.(tombstones := PopOldest(b.tombstones))
    else b.(removed := Rest(b.removed))
  }

  function ListValues<K, V>(d: Dict<K, V>): seq<V> {
    if forall k :: k in d.keys ==> k in d.at then Values(d.keys, d.at) else []
  }

  function SnapshotValue(p: Producer): Snapshot {
    Snapshot(true, p.epoch, p.revision, ListValues(p.board.active), ListValues(p.board.tombstones), p.board.removed,
             p.dropped, p.dropped == 0)
  }

  predicate Publishable(p: Producer, size: Snapshot -> nat) {
    size(SnapshotValue(p)) <= SNAPSHOT_MAX_BYTES || BoardSize(p.board) == 0
  }

  function Trimmed(p: Producer, size: Snapshot -> nat): Producer
    decreases BoardSize(p.board)
  {
    if Publishable(p, size) then p
    else Trimmed(p.(board := DropForBytes(p.board), dropped := p.dropped + 1), size)
  }

  function Advanced(p: Producer): Producer {
    p.(revision := p.revision + 1)
  }

  function Posted(b: Board, e: Event): Board {
    var k := StateKey(e);
    var t := EventTarget(e);
    var removed := if t.Some? then Without(b.removed, {t.value}) else b.removed;
    if Terminal(e) then Board(Pop(b.active, k), Put(Pop(b.tombstones, k), k, e), removed)
    else Board(Put(Pop(b.active, k), k, e), Pop(b.tombstones, k), removed)
  }

  function Observe(p: Producer, e: Event, size: Snapshot -> nat): Producer {
    Trimmed(CountBounded(Advanced(p.(board := Posted(p.board, e)))), size)
  }

  function Pruned(b: Board, target: Id): Board {
    Board(PrunedFrom(b.active, b.active.keys, target), PrunedFrom(b.tombstones, b.tombstones.keys, target),
          Without(b.removed, {target}) + [target])
  }

  function PruneTarget(p: Producer, target: Id, size: Snapshot -> nat): Producer {
    Trimmed(CountBounded(Advanced(p.(board := Pruned(p.board, target)))), size)
  }

  function ResetEpoch(p: Producer, size: Snapshot -> nat): Producer {
    Trimmed(Producer(p.root, p.epoch + 1, p.revision + 1, 0, false, NO_PROTOCOL, NO_BOARD), size)
  }

  // ---------------------------------------------------------------- every operation, and runs

  datatype Op =
    | Start(target: Id, turn: Option<Id>, request: Option<Id>, reading: Option<Id>, now: int)
    | Finish(target: Id, turn: Option<Id>, request: Option<Id>)
    | Activity(item: Id, activity: Activity, now: int)
    | Invoke(item: Id, call: Invocation, now: int)
    | Consult(item: Id, now: int)
    | ContextSent(item: Id, target: Id, now: int)
    | Complete(item: Id, target: Id, now: int)
    | Settle(item: Id, now: int)
    | Expire(now: int)
    | Post(event: Event)
    | Prune(target: Id)
    | PruneProtocol(target: Id)
    | Publish
    | Reset

  function Step(p: Producer, op: Op, size: Snapshot -> nat): Producer {
    match op
    case Start(target, turn, request, reading, now) => StartAgentWork(p, target, turn, request, reading, now).state
    case Finish(target, turn, request) => FinishAgentWork(p, target, turn, request).state
    case Activity(item, activity, now) => RememberActivity(p, item, activity, now).state
    case Invoke(item, call, now) => RememberInvocation(p, item, call, now).state
    case Consult(item, now) => Touched(p, item, now)
    case ContextSent(item, target, now) => MarkContextSent(p, item, target, now)
    case Complete(item, target, now) => CompleteActivity(p, item, target, now)
    case Settle(item, now) => SettleCorrelation(p, item, now)
    case Expire(now) => ExpiredFrom(p, p.protocol.correlations.keys, now)
    case Post(event) => Observe(p, event, size)
    case Prune(target) => if target == "" then p else PruneTarget(p, target, size)
    case PruneProtocol(target) =>
      var q := FinishTarget(p, target);
      if target == "" then q else PruneTarget(q, target, size)
    case Publish => Trimmed(p, size)
    case Reset => ResetEpoch(p, size)
  }

  function Run(p: Producer, ops: seq<Op>, size: Snapshot -> nat): Producer
    decreases |ops|
  {
    if ops == [] then p else Run(Step(p, ops[0], size), ops[1..], size)
  }
}
