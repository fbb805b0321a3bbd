/**
 What each producer operation does to records, agents and running work: exactly when a start credits its
 request, what an uncertain start takes over instead, which finish ends work, and which records,
 activities and payloads are kept, settled, expired or evicted.
 */
module ObserverWork {
  import opened Wrappers
  import opened OrderedDict
  import opened Observer
  import opened ObserverBounds
  import opened ObserverCredit

  // ---------------------------------------------------------------- records

  predicate HasRecord(p: Producer, item: Id) {
    KeyOf(p, item) in p.protocol.correlations.at
  }

  /** Nothing was forgotten that could have told of this request. */
  predicate Certain(p: Producer, item: Id) {
    if HasRecord(p, item) then !Record(p, KeyOf(p, item)).uncertain
    else !p.incomplete && |p.protocol.correlations.keys| < CORRELATION_LIMIT
  }

  /** Agents and running work are as they were. */
  predicate SameAgents(p: Producer, q: Producer) {
    && q.protocol.known == p.protocol.known && q.protocol.paths == p.protocol.paths
    && q.protocol.work == p.protocol.work && q.epoch == p.epoch && q.root == p.root
  }

  lemma {:induction false} RoomSame(p: Producer)
    ensures SameAgents(p, WithRoom(p))
    ensures WithRoom(p).incomplete == (p.incomplete || |p.protocol.correlations.keys| >= CORRELATION_LIMIT)
    decreases |p.protocol.correlations.keys|
  {
    if |p.protocol.correlations.keys| >= CORRELATION_LIMIT {
      RoomSame(Evicted(p, p.protocol.correlations.keys[0]));
    }
  }

  /** A retained record is left as it is; a new one lives 300 seconds and is certain only if nothing was forgotten. */
  lemma {:induction false} TouchedRecord(p: Producer, item: Id, now: int)
    ensures var q, k := Touched(p, item, now), KeyOf(p, item);
            && SameAgents(p, q) && KeyOf(q, item) == k && k in q.protocol.correlations.at
            && (HasRecord(p, item) ==> q == p)
            && (!HasRecord(p, item) ==>
                  Record(q, k) == Correlation(now + 300, !Certain(p, item), {}, {}, {}, {}, {}, map[], {}))
  {
    hide WithRoom;
    RoomSame(p);
  }

  /** Room for a new record is made by forgetting the oldest one, and that one alone. */
  lemma {:induction false} OldestMakesRoom(p: Producer, item: Id, now: int, j: Key)
    requires Consistent(p) && !HasRecord(p, item) && j != KeyOf(p, item)
    ensures var q := Touched(p, item, now);
            && (j in q.protocol.correlations.at <==>
                  && j in p.protocol.correlations.at
                  && (|p.protocol.correlations.keys| == 512 ==> j != p.protocol.correlations.keys[0]))
            && (j in q.protocol.correlations.at ==> Record(q, j) == Record(p, j))
  {
    hide Unindexed, PayloadsFit, IndexExact, AgentsOk, BoardOk, RecordOk;
    var d := p.protocol.correlations;
    if |d.keys| >= CORRELATION_LIMIT {
      PopFirst(d);
      assert WithRoom(Evicted(p, d.keys[0])) == Evicted(p, d.keys[0]);
    }
  }

  // ---------------------------------------------------------------- known agents

  /** An agent is known, or there is room, or some agent with a path is idle and can be retired. */
  predicate HasPlace(x: Protocol, target: Id) {
    target in x.known || |x.known| < 256 || exists i :: i in x.paths.keys && i !in x.work
  }

  lemma {:induction false} FirstIdleIsFirst(paths: seq<Id>, work: map<Id, Work>)
    ensures FirstIdle(paths, work).None? <==> forall i :: i in paths ==> i in work
    ensures FirstIdle(paths, work).Some? ==>
      exists n :: 0 <= n < |paths| && paths[n] == FirstIdle(paths, work).value && paths[n] !in work
                  && forall m :: 0 <= m < n ==> paths[m] in work
  {
    if paths != [] && paths[0] in work {
      FirstIdleIsFirst(paths[1..], work);
      assert forall i :: i in paths ==> i == paths[0] || i in paths[1..];
      if FirstIdle(paths[1..], work).Some? {
        var n :| 0 <= n < |paths[1..]| && paths[1..][n] == FirstIdle(paths[1..], work).value && paths[1..][n] !in work
                 && forall m :: 0 <= m < n ==> paths[1..][m] in work;
        assert paths[n + 1] == FirstIdle(paths, work).value;
        forall m | 0 <= m < n + 1 ensures paths[m] in work {
          if m > 0 {
            assert paths[m] == paths[1..][m - 1];
          }
        }
      }
    }
  }

  /**
   An agent is remembered exactly when it has a place; an idle agent is retired, and the loss recorded,
   exactly when the agent is new and there is no room; running agents are never retired.
   */
  lemma {:induction false} RememberedExactly(p: Producer, target: Id, path: Option<string>, i: Id)
    ensures var r, x := Remembered(p, target, path), p.protocol;
            && (r.flag <==> HasPlace(x, target))
            && (r.flag ==> target in r.state.protocol.known)
            && (i != target && i in r.state.protocol.known ==> i in x.known)
            && (i in x.known && (!r.flag || i in x.work || target in x.known || |x.known| < 256) ==>
                  i in r.state.protocol.known)
            && (r.flag && path.Some? ==> target in r.state.protocol.paths.at
                                         && r.state.protocol.paths.at[target] == path.value)
            && (i != target && i in r.state.protocol.paths.at ==>
                  i in x.paths.at && r.state.protocol.paths.at[i] == x.paths.at[i])
            && r.state.protocol.work == x.work && SameRecords(p, r.state)
            && r.state.dropped == p.dropped + (if target in x.known || |x.known| < 256 then 0 else 1)
            && (r.state.incomplete <==> p.incomplete || !(target in x.known || |x.known| < 256))
  {
    FirstIdleIsFirst(p.protocol.paths.keys, p.protocol.work);
  }

  // ---------------------------------------------------------------- starts and finishes

  /** The request's record does not yet say that the target was started or finished, and can take it. */
  predicate Startable(p: Producer, item: Id, target: Id) {
    HasRecord(p, item) ==>
      var c := Record(p, KeyOf(p, item));
      target !in c.started && target !in c.finished && (target in c.targets || |c.targets| < 64)
  }

  function WorkOf(p: Producer, target: Id): Work {
    if target in p.protocol.work then p.protocol.work[target] else Work(None, None)
  }

  /** Only the target's work changed. */
  ghost predicate OthersWork(p: Producer, q: Producer, target: Id) {
    forall t :: t != target ==>
      (t in q.protocol.work <==> t in p.protocol.work) && WorkOf(q, t) == WorkOf(p, t)
  }

  lemma {:induction false} AssignedExactly(p: Producer, target: Id, turn: Option<Id>, request: Option<Id>)
    ensures var s := Assigned(p, target, turn, request);
            && (HasPlace(p.protocol, target) ==>
                  && target in s.state.protocol.work && s.credited == request
                  && WorkOf(s.state, target) == NextWork(WorkOf(p, target), turn, request)
                  && (s.changed <==> target !in p.protocol.work || WorkOf(s.state, target) != WorkOf(p, target)))
            && (!HasPlace(p.protocol, target) ==>
                  s.state.protocol.work == p.protocol.work && !s.changed && s.credited.None?)
            && OthersWork(p, s.state, target) && s.state.protocol.correlations == p.protocol.correlations
  {
    hide Remembered;
    RememberedExactly(p, target, None, target);
  }

  lemma IndexedRecord(q: Producer, k: Key, target: Id)
    requires k in q.protocol.correlations.at && !Full(Record(q, k), target)
    ensures var r := Indexed(q, k, target);
            && SameAgents(q, r) && Record(r, k) == Record(q, k).(targets := Record(q, k).targets + {target})
            && InIndex(r.protocol, target, k)
  {}

  /**
   A start for a request credits it exactly when nothing was forgotten about the request, the target was
   neither started nor finished for it, its record can take the target and the agent has a place; the
   running work is then attributed to that request and turn, and nothing else runs differently.
   */
  lemma {:induction false} CreditedExactly(
    p: Producer, target: Id, turn: Option<Id>, item: Id, reading: Option<Id>, now: int
  )
    ensures var op := Start(target, turn, Some(item), reading, now);
            var s := StartAgentWork(p, target, turn, Some(item), reading, now);
            && (Credits(p, op) == Some((KeyOf(p, item), target)) <==>
                  Certain(p, item) && Startable(p, item, target) && HasPlace(p.protocol, target))
            && (Credits(p, op).Some? ==>
                  && target in s.state.protocol.work
                  && WorkOf(s.state, target) == Work(if turn.Some? then turn else WorkOf(p, target).turn, Some(item))
                  && OthersWork(p, s.state, target)
                  && target in Record(s.state, KeyOf(p, item)).started)
  {
    hide Touched, Indexed, Assigned, Remembered, HasPlace, OthersWork;
    var q, k := Touched(p, item, now), KeyOf(p, item);
    TouchedRecord(p, item, now);
    SamePlace(p, q, target);
    if !Full(Record(q, k), target) {
      var r := Indexed(q, k, target);
      IndexedRecord(q, k, target);
      var c := Record(r, k);
      var a := Amended(r, k, c.(started := c.started + {target}));
      SamePlace(p, a, target);
      AssignedExactly(a, target, turn, Some(item));
      SameOthers(p, a, Assigned(a, target, turn, Some(item)).state, target);
      AssignedExactly(r, target, reading, None);
    }
  }

  lemma SamePlace(p: Producer, q: Producer, target: Id)
    requires SameAgents(p, q)
    ensures HasPlace(q.protocol, target) <==> HasPlace(p.protocol, target)
    ensures WorkOf(q, target) == WorkOf(p, target)
  {}

  lemma SameOthers(p: Producer, a: Producer, q: Producer, target: Id)
    requires SameAgents(p, a) && OthersWork(a, q, target)
    ensures OthersWork(p, q, target)
  {}

  lemma WorkUnchanged(p: Producer, q: Producer, target: Id)
    requires q.protocol.work == p.protocol.work
    ensures OthersWork(p, q, target) && WorkOf(q, target) == WorkOf(p, target)
  {}

  /**
   A start that is not credited changes running work only when the request is uncertain and a verified
   active turn is read: the target then runs that turn, still under the request it was attributed to
   if the turn is the one already running, and under none otherwise.
   */
  lemma {:induction false} UncreditedStart(
    p: Producer, target: Id, turn: Option<Id>, item: Id, reading: Option<Id>, now: int
  )
    requires !(Certain(p, item) && Startable(p, item, target) && HasPlace(p.protocol, target))
    ensures var s := StartAgentWork(p, target, turn, Some(item), reading, now);
            var before := WorkOf(p, target);
            var same := before.turn.None? || before.turn == reading;
            && OthersWork(p, s.state, target)
            && (Startable(p, item, target) && HasPlace(p.protocol, target) && reading.Some? ==>
                  target in s.state.protocol.work
                  && WorkOf(s.state, target) == Work(reading, if same then before.request else None))
            && (!(Startable(p, item, target) && HasPlace(p.protocol, target) && reading.Some?) ==>
                  s.state.protocol.work == p.protocol.work && !s.changed)
  {
    hide Touched, Indexed, Assigned, Remembered, HasPlace, OthersWork;
    var q, k := Touched(p, item, now), KeyOf(p, item);
    TouchedRecord(p, item, now);
    SamePlace(p, q, target);
    WorkUnchanged(p, MarkIncomplete(q), target);
    if !Full(Record(q, k), target) {
      UncreditedOn(p, q, k, target, turn, item, reading);
    }
  }

  lemma UncreditedOn(
    p: Producer, q: Producer, k: Key, target: Id, turn: Option<Id>, item: Id, reading: Option<Id>
  )
    requires SameAgents(p, q) && k in q.protocol.correlations.at && !Full(Record(q, k), target)
    ensures var s, c := StartedOn(q, k, target, turn, Some(item), reading), Record(q, k);
            var free := target !in c.started && target !in c.finished && HasPlace(p.protocol, target);
            var before := WorkOf(p, target);
            && (c.uncertain || !free ==> OthersWork(p, s.state, target))
            && (c.uncertain && free && reading.Some? ==>
                  target in s.state.protocol.work && WorkOf(s.state, target) == NextWork(before, reading, None))
            && ((c.uncertain || !free) && !(free && reading.Some?) ==>
                  s.state.protocol.work == p.protocol.work && !s.changed)
  {
    hide Indexed, Assigned, Remembered, HasPlace, OthersWork;
    var r := Indexed(q, k, target);
    IndexedRecord(q, k, target);
    WorkUnchanged(p, r, target);
    SamePlace(p, r, target);
    var c := Record(r, k);
    var a := Amended(r, k, c.(started := c.started + {target}));
    SamePlace(p, a, target);
    AssignedExactly(a, target, turn, Some(item));
    SameOthers(p, a, Assigned(a, target, turn, Some(item)).state, target);
    AssignedExactly(r, target, reading, None);
    SameOthers(p, r, Assigned(r, target, reading, None).state, target);
  }

  /** A start that names no request continues the running turn under its request; another turn runs under none. */
  lemma {:induction false} UnrequestedStart(p: Producer, target: Id, turn: Option<Id>, reading: Option<Id>, now: int)
    requires Consistent(p)
    ensures var s := StartAgentWork(p, target, turn, None, reading, now);
            var before := WorkOf(p, target);
            && OthersWork(p, s.state, target) && s.credited.None?
            && (HasPlace(p.protocol, target) && (turn.None? || before.turn.None? || turn == before.turn) ==>
                  WorkOf(s.state, target) == Work(if turn.Some? then turn else before.turn, before.request))
            && (HasPlace(p.protocol, target) && turn.Some? && before.turn.Some? && turn != before.turn ==>
                  WorkOf(s.state, target) == Work(turn, None))
            && (HasPlace(p.protocol, target) <==> target in s.state.protocol.work)
  {
    hide Assigned, OthersWork;
    AssignedExactly(p, target, turn, None);
  }

  /**
   A finish ends running work exactly when it does not name another turn than the running one, nor another
   request than the one it is attributed to; nobody else's work ends.
   */
  lemma {:induction false} FinishedExactly(p: Producer, target: Id, turn: Option<Id>, request: Option<Id>)
    ensures var r, w := FinishAgentWork(p, target, turn, request), WorkOf(p, target);
            var other := (turn.Some? && w.turn.Some? && turn != w.turn) || (request.Some? && request != w.request);
            && (r.flag <==> target in p.protocol.work && !other)
            && (target in r.state.protocol.work <==> target in p.protocol.work && other)
            && OthersWork(p, r.state, target)
            && (target in r.state.protocol.work ==> WorkOf(r.state, target) == w)
  {}

  /** The finish of an earlier request never ends the work of a later one: only the credited request does. */
  lemma {:induction false} FinishNeedsOwnRequest(
    p: Producer, target: Id, turn: Option<Id>, item: Id, reading: Option<Id>, now: int, other: Id
  )
    requires Certain(p, item) && Startable(p, item, target) && HasPlace(p.protocol, target)
    ensures var q := StartAgentWork(p, target, turn, Some(item), reading, now).state;
            && (FinishAgentWork(q, target, turn, Some(other)).flag <==> other == item)
            && (turn.Some? ==> (FinishAgentWork(q, target, Some(other), None).flag <==> other == turn.value))
  {
    hide StartAgentWork, Certain, Startable, HasPlace, OthersWork;
    CreditedExactly(p, target, turn, item, reading, now);
  }

  // ---------------------------------------------------------------- activities and invocations

  /** Where an activity of the root is kept: not finished for the request, room in the record, a place for the agent. */
  predicate Keepable(p: Producer, item: Id, e: Observer.Activity) {
    && e.thread == p.root && HasPlace(p.protocol, e.agent)
    && (HasRecord(p, item) ==>
          var c := Record(p, KeyOf(p, item));
          e.agent !in c.finished && (e.agent in c.targets || |c.targets| < 64))
  }

  predicate AlreadyKept(p: Producer, item: Id, e: Observer.Activity) {
    var c := Record(p, KeyOf(p, item));
    HasRecord(p, item) && e.agent in c.activities && c.activities[e.agent] == e
  }

  /**
   An activity is kept, without its attached invocation, exactly when it may be and is not the one kept
   already; the agent is then a target of the request with the activity's path.
   */
  lemma {:induction false} ActivityExactly(p: Producer, item: Id, e: Observer.Activity, now: int)
    ensures var r, k := RememberActivity(p, item, e, now), KeyOf(p, item);
            && (r.flag <==> Keepable(p, item, e) && !AlreadyKept(p, item, e))
            && (r.flag ==>
                  var c := Record(r.state, k);
                  && e.agent in c.activities && c.activities[e.agent] == e.(attached := false)
                  && e.agent in c.targets && InIndex(r.state.protocol, e.agent, k)
                  && e.agent in r.state.protocol.known
                  && e.agent in r.state.protocol.paths.at && r.state.protocol.paths.at[e.agent] == e.path)
            && r.state.protocol.work == p.protocol.work
  {
    hide Touched, Remembered, HasPlace;
    var q, k := Touched(p, item, now), KeyOf(p, item);
    TouchedRecord(p, item, now);
    SamePlace(p, q, e.agent);
    RememberedExactly(q, e.agent, Some(e.path), e.agent);
    if e.thread == p.root {
      ActivityOnExactly(q, k, e);
    }
  }

  lemma {:induction false} ActivityOnExactly(q: Producer, k: Key, e: Observer.Activity)
    requires k in q.protocol.correlations.at
    ensures var r, c := ActivityOn(q, k, e), Record(q, k);
            && (r.flag <==>
                  && e.agent !in c.finished && !Full(c, e.agent) && HasPlace(q.protocol, e.agent)
                  && !(e.agent in c.activities && c.activities[e.agent] == e))
            && (r.flag ==>
                  && Record(r.state, k) == c.(activities := c.activities[e.agent := e.(attached := false)],
                                              targets := c.targets + {e.agent})
                  && InIndex(r.state.protocol, e.agent, k) && e.agent in r.state.protocol.known
                  && e.agent in r.state.protocol.paths.at && r.state.protocol.paths.at[e.agent] == e.path)
            && r.state.protocol.work == q.protocol.work
  {
    hide Remembered, HasPlace, Indexed;
    var c := Record(q, k);
    var r := Remembered(q, e.agent, Some(e.path));
    RememberedExactly(q, e.agent, Some(e.path), e.agent);
    if !Full(c, e.agent) {
      var kept := c.(activities := c.activities[e.agent := e.(attached := false)]);
      IndexedRecord(Amended(r.state, k, kept), k, e.agent);
    }
  }

  /** The receivers that a record of these targets takes, in order, while it holds fewer than 64. */
  function Taken(targets: set<Id>, receivers: seq<Id>): set<Id>
    decreases |receivers|
  {
    if receivers == [] then targets
    else if receivers[0] in targets || |targets| < 64 then Taken(targets + {receivers[0]}, receivers[1..])
    else Taken(targets, receivers[1..])
  }

  lemma {:induction false} IndexedAllRecord(q: Producer, k: Key, receivers: seq<Id>)
    requires k in q.protocol.correlations.at
    ensures var r := IndexedAll(q, k, receivers);
            && SameAgents(q, r) && k in r.protocol.correlations.at && r.protocol.payloads == q.protocol.payloads
            && Record(r, k) == Record(q, k).(targets := Taken(Record(q, k).targets, receivers))
    decreases |receivers|
  {
    hide Record;
    if receivers != [] {
      IndexStep(q, k, receivers[0]);
      IndexedAllRecord(Indexed(q, k, receivers[0]), k, receivers[1..]);
    }
  }

  lemma IndexStep(q: Producer, k: Key, t: Id)
    requires k in q.protocol.correlations.at
    ensures var r := Indexed(q, k, t);
            && SameAgents(q, r) && k in r.protocol.correlations.at && r.protocol.payloads == q.protocol.payloads
            && Record(r, k) == (if t in Record(q, k).targets || |Record(q, k).targets| < 64
                                then Record(q, k).(targets := Record(q, k).targets + {t}) else Record(q, k))
  {}

  /** The record is certain, and not every target it will have is finished. */
  predicate Worthwhile(c: Correlation, call: Invocation) {
    var targets := Taken(c.targets, call.receivers);
    !c.uncertain && (targets == {} || !(targets <= c.finished))
  }

  /**
   An invocation phase is recorded exactly once, and never after completion; its receivers become targets
   while there is room; and its payload is kept exactly when the request is certain and not finished for
   every target, as far as the payload limits allow.
   */
  lemma {:induction false} InvocationExactly(p: Producer, item: Id, call: Invocation, now: int)
    ensures var r, k, c := RememberInvocation(p, item, call, now), KeyOf(p, item), Record(p, KeyOf(p, item));
            && (r.flag <==>
                  && call.thread == p.root
                  && (HasRecord(p, item) ==> call.phase !in c.phases && COMPLETED !in c.phases))
            && (r.flag ==>
                  && call.phase in Record(r.state, k).phases
                  && Record(r.state, k).targets == Taken(if HasRecord(p, item) then c.targets else {}, call.receivers)
                  && (HasRecord(p, item) && !Worthwhile(c, call) ==> r.state.protocol.payloads == p.protocol.payloads)
                  && (HasRecord(p, item) && Worthwhile(c, call) && PayloadsFit(Put(p.protocol.payloads, k, call)) ==>
                        r.state.protocol.payloads == Put(p.protocol.payloads, k, call)))
            && r.state.protocol.work == p.protocol.work
  {
    hide Touched, IndexedAll, PayloadsBounded, Taken, Record;
    TouchedRecord(p, item, now);
    var q, k := Touched(p, item, now), KeyOf(p, item);
    if call.thread == p.root {
      InvocationOnExactly(q, k, call);
      assert Record(q, k).targets == if HasRecord(p, item) then Record(p, k).targets else {};
    }
  }

  lemma {:induction false} InvocationOnExactly(q: Producer, k: Key, call: Invocation)
    requires k in q.protocol.correlations.at
    ensures var r, c := InvocationOn(q, k, call), Record(q, k);
            && (r.flag <==> call.phase !in c.phases && COMPLETED !in c.phases)
            && (r.flag ==>
                  && call.phase in Record(r.state, k).phases
                  && Record(r.state, k).targets == Taken(c.targets, call.receivers)
                  && (!Worthwhile(c, call) ==> r.state.protocol.payloads == q.protocol.payloads)
                  && (Worthwhile(c, call) && PayloadsFit(Put(q.protocol.payloads, k, call)) ==>
                        r.state.protocol.payloads == Put(q.protocol.payloads, k, call)))
            && r.state.protocol.work == q.protocol.work
  {
    hide IndexedAll, PayloadsBounded, Taken;
    var c := Record(q, k);
    var a := Amended(q, k, c.(phases := c.phases + {call.phase}));
    IndexedAllRecord(a, k, call.receivers);
    var r := IndexedAll(a, k, call.receivers);
    var kept := r.(protocol := r.protocol.(payloads := Put(r.protocol.payloads, k, call)));
    PayloadsRecord(kept, k);
    FittingStays(kept);
  }

  /** Retiring payloads only doubts records. */
  lemma {:induction false} PayloadsRecord(p: Producer, k: Key)
    requires k in p.protocol.correlations.at
    ensures var q := PayloadsBounded(p);
            && SameAgents(p, q) && k in q.protocol.correlations.at
            && Record(q, k) == Record(p, k).(uncertain := Record(q, k).uncertain)
    decreases |p.protocol.payloads.keys|
  {
    if !PayloadsFit(p.protocol.payloads) && p.protocol.payloads.keys != [] {
      PayloadsRecord(PayloadRetired(p, p.protocol.payloads.keys[0]), k);
    }
  }

  /** The `n` oldest payloads are gone and their records doubted; with one fewer gone a limit was exceeded. */
  predicate Retired(d: Dict<Key, Invocation>, q: Producer, n: nat) {
    && 0 < n <= |d.keys| && q.protocol.payloads.keys == d.keys[n..]
    && OverTheLimit(d, n - 1) && AllDoubted(q, d.keys[..n])
  }

  /** Payloads are retired oldest first and no further than needed; a retired one's record is doubted. */
  lemma {:induction false} PayloadsOldestFirst(p: Producer)
    requires Valid(p.protocol.payloads) && !PayloadsFit(p.protocol.payloads)
    ensures exists n :: Retired(p.protocol.payloads, PayloadsBounded(p), n)
    decreases |p.protocol.payloads.keys|
  {
    hide PayloadsFit, Valid, Retired, PayloadRetired;
    var d := p.protocol.payloads;
    EmptyFits(d);
    var r := PayloadRetired(p, d.keys[0]);
    RetiredOnce(p);
    if PayloadsFit(r.protocol.payloads) {
      FittingStays(r);
      assert Retired(d, PayloadsBounded(p), 1);
    } else {
      PayloadsOldestFirst(r);
      var n: nat :| Retired(r.protocol.payloads, PayloadsBounded(r), n);
      RetiredAgain(p, r, n);
      assert Retired(d, PayloadsBounded(p), n + 1);
    }
  }

  lemma FittingStays(p: Producer)
    ensures PayloadsFit(p.protocol.payloads) ==> PayloadsBounded(p) == p
  {}

  lemma RetiredOnce(p: Producer)
    requires Valid(p.protocol.payloads) && !PayloadsFit(p.protocol.payloads) && p.protocol.payloads.keys != []
    ensures var d, r := p.protocol.payloads, PayloadRetired(p, p.protocol.payloads.keys[0]);
            && Retired(d, r, 1) && Valid(r.protocol.payloads) && AllDoubted(r, [d.keys[0]])
            && r.protocol.payloads == Dict(d.keys[1..], d.at - {d.keys[0]})
  {
    hide Valid, TotalBytes;
    var d := p.protocol.payloads;
    PopFirst(d);
    DropValid(d, {d.keys[0]});
    assert d.keys[0..] == d.keys && d.keys[..1] == [d.keys[0]];
  }

  lemma RetiredAgain(p: Producer, r: Producer, n: nat)
    requires Valid(p.protocol.payloads) && p.protocol.payloads.keys != []
    requires var d := p.protocol.payloads; r.protocol.payloads == Dict(d.keys[1..], d.at - {d.keys[0]})
    requires AllDoubted(r, [p.protocol.payloads.keys[0]]) && Retired(r.protocol.payloads, PayloadsBounded(r), n)
    ensures Retired(p.protocol.payloads, PayloadsBounded(r), n + 1)
  {
    hide PayloadsBounded, AllDoubted, OverTheLimit;
    var d := p.protocol.payloads;
    assert d.keys[1..][n..] == d.keys[n + 1..];
    OverAgain(d, n);
    PayloadsDoubt(r, d.keys[0]);
    DoubtedAgain(PayloadsBounded(r), d.keys, n);
  }

  lemma EmptyFits(d: Dict<Key, Invocation>)
    ensures d.keys == [] ==> PayloadsFit(d)
  {}

  lemma {:induction false} BytesOfOthers(keys: seq<Key>, at: map<Key, Invocation>, k: Key)
    requires k !in keys
    ensures TotalBytes(keys, at - {k}) == TotalBytes(keys, at)
  {
    if keys != [] {
      assert keys[0] in keys && forall j :: j in keys[1..] ==> j in keys;
      BytesOfOthers(keys[1..], at, k);
    }
  }

  lemma OverAgain(d: Dict<Key, Invocation>, n: nat)
    requires 0 < n < |d.keys| && Distinct(d.keys)
    requires OverTheLimit(Dict(d.keys[1..], d.at - {d.keys[0]}), n - 1)
    ensures OverTheLimit(d, n)
  {
    hide TotalBytes;
    assert d.keys[1..][n - 1..] == d.keys[n..];
    forall k | k in d.keys[n..] ensures k != d.keys[0] {
      var i :| 0 <= i < |d.keys[n..]| && d.keys[n..][i] == k;
      assert k == d.keys[n + i];
    }
    BytesOfOthers(d.keys[n..], d.at, d.keys[0]);
  }

  lemma {:induction false} PayloadsDoubt(p: Producer, k: Key)
    requires AllDoubted(p, [k])
    ensures AllDoubted(PayloadsBounded(p), [k])
    decreases |p.protocol.payloads.keys|
  {
    assert k in [k];
    if !PayloadsFit(p.protocol.payloads) && p.protocol.payloads.keys != [] {
      PayloadsDoubt(PayloadRetired(p, p.protocol.payloads.keys[0]), k);
    }
  }

  lemma DoubtedAgain(p: Producer, keys: seq<Key>, n: nat)
    requires n < |keys| && AllDoubted(p, keys[1..][..n]) && AllDoubted(p, [keys[0]])
    ensures AllDoubted(p, keys[..n + 1])
  {
    assert keys[0] in [keys[0]];
    assert keys[..n + 1] == [keys[0]] + keys[1..][..n];
  }

  /** Without its `n` oldest payloads the dictionary still exceeds a limit. */
  predicate OverTheLimit(d: Dict<Key, Invocation>, n: nat)
    requires n <= |d.keys|
  {
    |d.keys| - n > PAYLOAD_LIMIT || TotalBytes(d.keys[n..], d.at) > PAYLOAD_MAX_BYTES
  }

  predicate AllDoubted(p: Producer, keys: seq<Key>) {
    forall k :: k in keys ==> k in p.protocol.correlations.at && Record(p, k).uncertain
  }

  // ---------------------------------------------------------------- settling, finishing, expiring

  /** The request needs nothing more: every target finished, or the call completed and every target did. */
  predicate Over(targets: set<Id>, finished: set<Id>, completed: set<Id>, phases: set<string>) {
    targets != {} && forall t :: t in targets ==> t in finished || ("item/completed" in phases && t in completed)
  }

  lemma SettledIsOver(c: Correlation)
    ensures Settled(c) <==> Over(c.targets, c.finished, c.completed, c.phases)
  {}

  /** Settling drops the payload of a request that needs nothing more, and nothing else. */
  lemma {:induction false} SettleExactly(p: Producer, item: Id, now: int, j: Key)
    requires HasRecord(p, item)
    ensures var q, k, c := SettleCorrelation(p, item, now), KeyOf(p, item), Record(p, KeyOf(p, item));
            && q.protocol.correlations == p.protocol.correlations && SameAgents(p, q)
            && (j in q.protocol.payloads.at <==>
                  && j in p.protocol.payloads.at
                  && !(j == k && Over(c.targets, c.finished, c.completed, c.phases)))
            && (j in q.protocol.payloads.at ==> q.protocol.payloads.at[j] == p.protocol.payloads.at[j])
  {
    hide WithRoom;
    SettledIsOver(Record(p, KeyOf(p, item)));
  }

  /** A completed activity is remembered as such; its payload goes when that was the last thing awaited. */
  lemma {:induction false} CompleteExactly(p: Producer, item: Id, target: Id, now: int)
    requires HasRecord(p, item)
    ensures var q, k, c := CompleteActivity(p, item, target, now), KeyOf(p, item), Record(p, KeyOf(p, item));
            && Record(q, k) == c.(completed := c.completed + {target}) && SameAgents(p, q)
            && (k in q.protocol.payloads.at <==>
                  && k in p.protocol.payloads.at
                  && !Over(c.targets, c.finished, c.completed + {target}, c.phases))
  {
    hide WithRoom, Over, SettleCorrelation, Touched;
    var k, c := KeyOf(p, item), Record(p, KeyOf(p, item));
    TouchedRecord(p, item, now);
    var a := Amended(p, k, c.(completed := c.completed + {target}));
    SettleExactly(a, item, now, k);
  }

  /** Sending the context is remembered for exactly that target. */
  lemma {:induction false} ContextSentExactly(p: Producer, item: Id, target: Id, now: int, t: Id)
    ensures var q, k := MarkContextSent(p, item, target, now), KeyOf(p, item);
            && SameAgents(p, q)
            && (t in Record(q, k).contextSent <==>
                  t == target || (HasRecord(p, item) && t in Record(p, k).contextSent))
            && (HasRecord(p, item) ==> Record(q, k) == Record(p, k).(contextSent := Record(q, k).contextSent))
  {
    hide Touched;
    TouchedRecord(p, item, now);
  }

  /**
   Finishing a target everywhere: its running work ends, every request that has it as a target counts it
   finished and forgets its activity, a payload goes exactly when its request thereby needs nothing more,
   and every other request stays as it was.
   */
  lemma {:induction false} FinishTargetExactly(p: Producer, target: Id, k: Key)
    requires Consistent(p) && k in p.protocol.correlations.at
    ensures var q, c := FinishTarget(p, target), Record(p, k);
            && k in q.protocol.correlations.at && target !in q.protocol.work
            && (target in c.targets ==>
                  Record(q, k) == c.(finished := c.finished + {target}, activities := c.activities - {target}))
            && (target !in c.targets ==> Record(q, k) == c)
            && (k in q.protocol.payloads.at <==>
                  && k in p.protocol.payloads.at
                  && !(target in c.targets && Over(c.targets, c.finished + {target}, c.completed, c.phases)))
            && q.protocol.known == p.protocol.known && q.protocol.paths == p.protocol.paths
  {
    hide Over, Limits, AgentsOk, BoardOk, Settled, RecordOk, Without;
    assert InIndex(p.protocol, target, k) <==> InTargets(p.protocol, target, k);
    SettledIsOver(FinishedFor(Record(p, k), target));
  }

  /** Expiry forgets exactly the records that are due, with their payloads, and notes the loss if there were any. */
  lemma {:induction false} ExpiredExactly(p: Producer, now: int, j: Key)
    requires Consistent(p)
    ensures var q, at := Step(p, Expire(now), _ => 0), p.protocol.correlations.at;
            && (j in q.protocol.correlations.at <==> j in at && at[j].expires > now)
            && (j in q.protocol.correlations.at ==> Record(q, j) == at[j])
            && (j in q.protocol.payloads.at <==> j in p.protocol.payloads.at && j in at && at[j].expires > now)
            && (j in q.protocol.payloads.at ==> q.protocol.payloads.at[j] == p.protocol.payloads.at[j])
            && (j in at && at[j].expires <= now ==> q.incomplete && q.dropped > p.dropped)
            && SameAgents(p, q)
  {
    hide Linked;
    ExpiredPass(p, p.protocol.correlations.keys, now, j);
    assert j in p.protocol.correlations.at ==> j in p.protocol.correlations.keys by { AllListed(p, j); }
    assert j in p.protocol.payloads.at ==> j in p.protocol.correlations.at by { AllListed(p, j); }
  }

  lemma AllListed(p: Producer, j: Key)
    requires Linked(p)
    ensures j in p.protocol.correlations.at ==> j in p.protocol.correlations.keys
    ensures j in p.protocol.payloads.at ==> j in p.protocol.correlations.at
  {}

  predicate IsDue(p: Producer, j: Key, now: int) {
    j in p.protocol.correlations.at && p.protocol.correlations.at[j].expires <= now
  }

  lemma {:induction false} ExpiredPass(p: Producer, keys: seq<Key>, now: int, j: Key)
    ensures var q, at := ExpiredFrom(p, keys, now), p.protocol.correlations.at;
            var gone := j in keys && IsDue(p, j, now);
            && (j in q.protocol.correlations.at <==> j in at && !gone)
            && (j in q.protocol.correlations.at ==> Record(q, j) == at[j])
            && (j in q.protocol.payloads.at <==> j in p.protocol.payloads.at && !gone)
            && (j in q.protocol.payloads.at ==> q.protocol.payloads.at[j] == p.protocol.payloads.at[j])
            && (p.incomplete ==> q.incomplete) && (gone ==> q.incomplete && q.dropped > p.dropped)
            && q.dropped >= p.dropped && SameAgents(p, q)
    decreases |keys|
  {
    hide Unindexed, Without;
    if keys != [] {
      var q := if IsDue(p, keys[0], now) then Evicted(p, keys[0]) else p;
      ExpiredPass(q, keys[1..], now, j);
    }
  }
}
