/**
 What each producer operation does: where an observed event goes, which limits drop what first, and
 exactly when a start, a finish, an activity or an expiry takes effect.
 */
module ObserverEffects {
  import opened Wrappers
  import opened OrderedDict
  import opened Observer
  import opened ObserverBounds
  import opened ObserverCredit

  // ---------------------------------------------------------------- limits drop the oldest first

  predicate Tail<T(==)>(a: seq<T>, b: seq<T>) {
    |a| <= |b| && a == b[|b| - |a|..]
  }

  predicate SubMap(d: map<EventKey, Event>, b: map<EventKey, Event>) {
    forall k :: k in d ==> k in b && d[k] == b[k]
  }

  /** The newest part of a dictionary, with its values. */
  predicate NewestPart(d: Dict<EventKey, Event>, b: Dict<EventKey, Event>) {
    Tail(d.keys, b.keys) && SubMap(d.at, b.at)
  }

  predicate Remains(c: Board, b: Board) {
    NewestPart(c.active, b.active) && NewestPart(c.tombstones, b.tombstones) && Tail(c.removed, b.removed)
  }

  lemma RemainsItself(b: Board)
    ensures Remains(b, b)
  {}

  lemma NewestPartAgain(c: Dict<EventKey, Event>, d: Dict<EventKey, Event>, b: Dict<EventKey, Event>)
    requires NewestPart(c, d) && NewestPart(d, b)
    ensures NewestPart(c, b)
  {
    TailAgain(c.keys, d.keys, b.keys);
  }

  lemma TailAgain<T>(c: seq<T>, d: seq<T>, b: seq<T>)
    requires Tail(c, d) && Tail(d, b)
    ensures Tail(c, b)
  {
    var n, m := |b| - |d|, |d| - |c|;
    assert b[n..][m..] == b[n + m..];
  }

  lemma RemainsAgain(c: Board, d: Board, b: Board)
    requires Remains(c, d) && Remains(d, b)
    ensures Remains(c, b)
  {
    hide NewestPart, Tail;
    TailAgain(c.removed, d.removed, b.removed);
    NewestPartAgain(c.active, d.active, b.active);
    NewestPartAgain(c.tombstones, d.tombstones, b.tombstones);
  }

  lemma OldestGone(d: Dict<EventKey, Event>)
    ensures NewestPart(PopOldest(d), d) && NewestPart(d, d)
  {}

  lemma DropRemains(b: Board)
    ensures Remains(DropForCount(b), b) && Remains(DropForBytes(b), b)
  {
    hide NewestPart, PopOldest;
    OldestGone(b.active);
    OldestGone(b.tombstones);
    RestIsTail(b.removed);
  }

  lemma RestIsTail(s: seq<Id>)
    ensures Tail(Rest(s), s) && Tail(s, s)
  {}

  lemma DropShrinks(b: Board)
    ensures BoardSize(b) > 0 ==> BoardSize(DropForCount(b)) == BoardSize(b) - 1
    ensures BoardSize(b) > 0 ==> BoardSize(DropForBytes(b)) == BoardSize(b) - 1
  {}

  /** What is empty stays empty. */
  lemma RemainsEmpty(c: Board, b: Board)
    requires Remains(c, b)
    ensures b.tombstones.keys == [] ==> c.tombstones.keys == []
    ensures b.removed == [] ==> c.removed == []
    ensures b.active.keys == [] ==> c.active.keys == []
  {}

  /**
   The event limit drops tombstones before removed targets and those before active events, each oldest
   first, and as few as bring the board to 64; it drops nothing exactly when the loss count stays.
   */
  lemma {:induction false} CountDropsInOrder(p: Producer)
    ensures var q := CountBounded(p);
            && Remains(q.board, p.board) && (q.dropped == p.dropped ==> q == p) && q.dropped >= p.dropped
            && BoardSize(q.board) == (if BoardSize(p.board) <= 64 then BoardSize(p.board) else 64)
            && (q.board.removed != p.board.removed ==> q.board.tombstones.keys == [])
            && (q.board.active != p.board.active ==> q.board.tombstones.keys == [] && q.board.removed == [])
    decreases BoardSize(p.board)
  {
    hide Remains;
    if BoardSize(p.board) > BOARD_LIMIT {
      var d := p.(board := DropForCount(p.board), dropped := p.dropped + 1);
      DropRemains(p.board);
      DropShrinks(p.board);
      CountDropsInOrder(d);
      RemainsAgain(CountBounded(p).board, d.board, p.board);
      RemainsEmpty(CountBounded(p).board, p.board);
    } else {
      RemainsItself(p.board);
    }
  }

  /** The byte limit drops active events before tombstones and those before removed targets. */
  lemma {:induction false} BytesDropInOrder(p: Producer, size: Snapshot -> nat)
    ensures var q := Trimmed(p, size);
            && Remains(q.board, p.board) && (q.dropped == p.dropped ==> q == p) && q.dropped >= p.dropped
            && (q.board.tombstones != p.board.tombstones ==> q.board.active.keys == [])
            && (q.board.removed != p.board.removed ==> q.board.active.keys == [] && q.board.tombstones.keys == [])
    decreases BoardSize(p.board)
  {
    hide Remains, SnapshotValue;
    if Publishable(p, size) {
      RemainsItself(p.board);
    } else {
      var d := p.(board := DropForBytes(p.board), dropped := p.dropped + 1);
      DropRemains(p.board);
      DropShrinks(p.board);
      BytesDropInOrder(d, size);
      RemainsAgain(Trimmed(p, size).board, d.board, p.board);
      RemainsEmpty(Trimmed(p, size).board, p.board);
    }
  }

  // ---------------------------------------------------------------- an observed event

  /** An event that ends its item: completed, or of an ended activity. */
  predicate Ends(e: Event) {
    e.completed || (e.item.Some? && e.item.value.ended)
  }

  /** Where the event is filed, as the newest, and that it is nowhere else; other events keep their place. */
  lemma {:induction false} PostedExactly(b: Board, e: Event, j: EventKey)
    requires BoardShape(b)
    ensures var c, k := Posted(b, e), StateKey(e);
            && (Ends(e) ==> k in c.tombstones.at && c.tombstones.at[k] == e && k !in c.active.at)
            && (!Ends(e) ==> k in c.active.at && c.active.at[k] == e && k !in c.tombstones.at)
            && (Ends(e) ==> c.tombstones.keys != [] && c.tombstones.keys[|c.tombstones.keys| - 1] == k)
            && (!Ends(e) ==> c.active.keys != [] && c.active.keys[|c.active.keys| - 1] == k)
            && (j != k ==> (j in c.active.at <==> j in b.active.at) && (j in c.tombstones.at <==> j in b.tombstones.at))
            && (j != k && j in b.active.at ==> c.active.at[j] == b.active.at[j])
            && (j != k && j in b.tombstones.at ==> c.tombstones.at[j] == b.tombstones.at[j])
  {
    hide StateKey, EventTarget;
  }

  lemma {:induction false} PostedTargets(b: Board, e: Event, t: Id)
    ensures t in Posted(b, e).removed <==> t in b.removed && EventTarget(e) != Some(t)
  {
    hide StateKey, EventTarget;
  }

  /**
   Observing an event: unless a limit drops it, an ending event is a tombstone with that value and not
   active, any other the reverse; every other retained event was there before with the same value; and
   the event's own target is no longer a removed one. Without a loss nothing is dropped at all.
   */
  lemma {:induction false} PostFiles(p: Producer, e: Event, size: Snapshot -> nat, j: EventKey)
    requires Consistent(p)
    ensures var q, k := Step(p, Post(e), size), StateKey(e);
            && (Ends(e) ==> k !in q.board.active.at && (k in q.board.tombstones.at ==> q.board.tombstones.at[k] == e))
            && (!Ends(e) ==> k !in q.board.tombstones.at && (k in q.board.active.at ==> q.board.active.at[k] == e))
            && (j != k && j in q.board.active.at ==>
                  j in p.board.active.at && q.board.active.at[j] == p.board.active.at[j])
            && (j != k && j in q.board.tombstones.at ==>
                  j in p.board.tombstones.at && q.board.tombstones.at[j] == p.board.tombstones.at[j])
            && (EventTarget(e).Some? ==> EventTarget(e).value !in q.board.removed)
            && Remains(q.board, Posted(p.board, e)) && (q.dropped == p.dropped ==> q.board == Posted(p.board, e))
            && q.revision == p.revision + 1 && q.protocol == p.protocol
  {
    hide Consistent, StateKey, EventTarget, Posted, CountBounded, Trimmed, Ends, Remains;
    var b := Posted(p.board, e);
    var m := Advanced(p.(board := b));
    BoardIsShaped(p);
    PostedExactly(p.board, e, j);
    CountDropsInOrder(m);
    BytesDropInOrder(CountBounded(m), size);
    PostKeeps(p, b, size);
    PostRevision(p, b, size);
    var q := Trimmed(CountBounded(m), size);
    RemainsAgain(q.board, CountBounded(m).board, b);
    RemainingEvents(q.board, b, StateKey(e));
    RemainingEvents(q.board, b, j);
    if EventTarget(e).Some? {
      PostedTargets(p.board, e, EventTarget(e).value);
      RemainingTargets(q.board, b, EventTarget(e).value);
    }
  }

  /** Two events of items replace one another exactly when thread, item and kind agree. */
  lemma {:induction false} KeysSeparate(e: Event, f: Event)
    requires e.item.Some? && e.item.value.id != "" && f.item.Some? && f.item.value.id != ""
    ensures StateKey(e) == StateKey(f) <==>
      && e.kind == f.kind && e.item.value.id == f.item.value.id
      && OrGlobal(EventThread(e)) == OrGlobal(EventThread(f))
  {}

  predicate NamesItem(e: Event) {
    e.item.Some? && e.item.value.id != ""
  }

  /** Whose event it is: the acting sub-agent's, else its target's, else its thread's, else everybody's. */
  lemma {:induction false} FiledByThread(e: Event)
    requires NamesItem(e) || e.activityItem != "" || e.kind != "trace_published"
    ensures var acts := e.kind == "app_server_subagent_activity" && e.item.Some? && e.item.value.agent != "";
            && (acts ==> StateKey(e).thread == e.item.value.agent)
            && (!acts && e.target != "" ==> StateKey(e).thread == e.target)
            && (!acts && e.target == "" && e.thread != "" ==> StateKey(e).thread == e.thread)
            && (!acts && e.target == "" && e.thread == "" ==> StateKey(e).thread == "global")
  {}

  /** Which item it is about: its own, else its activity's, else only the latest of its kind is kept. */
  lemma {:induction false} FiledByItem(e: Event)
    ensures NamesItem(e) ==> StateKey(e).item == e.item.value.id
    ensures !NamesItem(e) && e.activityItem != "" ==> StateKey(e).item == e.activityItem
    ensures !NamesItem(e) && e.activityItem == "" ==> StateKey(e).item == "latest"
    ensures !NamesItem(e) && e.activityItem == "" && e.kind == "trace_published" ==> StateKey(e).thread == "global"
  {}

  /** Whom it is addressed to: its target, else its item's agent, else its thread, if any. */
  lemma {:induction false} AddressedTo(e: Event, t: Id)
    ensures EventTarget(e) == Some(t) <==>
      && t != ""
      && (|| t == e.target
          || (e.target == "" && e.item.Some? && t == e.item.value.agent)
          || (e.target == "" && (e.item.None? || e.item.value.agent == "") && t == e.thread))
  {}

  /** Events of different kinds never replace one another. */
  lemma {:induction false} KindsSeparate(b: Board, e: Event, f: Event)
    requires BoardShape(b) && e.kind != f.kind
    ensures StateKey(f) in b.active.at ==> StateKey(f) in Posted(b, e).active.at
    ensures StateKey(f) in b.tombstones.at ==> StateKey(f) in Posted(b, e).tombstones.at
  {
    assert StateKey(e).kind == e.kind && StateKey(f).kind == f.kind;
    PostedExactly(b, e, StateKey(f));
  }

  lemma RemainingEvents(c: Board, b: Board, k: EventKey)
    requires Remains(c, b)
    ensures k in c.active.at ==> k in b.active.at && c.active.at[k] == b.active.at[k]
    ensures k in c.tombstones.at ==> k in b.tombstones.at && c.tombstones.at[k] == b.tombstones.at[k]
  {}

  lemma RemainingTargets(c: Board, b: Board, t: Id)
    requires Remains(c, b)
    ensures t in c.removed ==> t in b.removed
  {}

  lemma PostRevision(p: Producer, b: Board, size: Snapshot -> nat)
    ensures var q := Trimmed(CountBounded(Advanced(p.(board := b))), size); q.revision == p.revision + 1
  {
    hide SnapshotValue;
    CountRevision(Advanced(p.(board := b)));
    TrimRevision(CountBounded(Advanced(p.(board := b))), size);
  }

  lemma {:induction false} CountRevision(p: Producer)
    ensures CountBounded(p).revision == p.revision
    decreases BoardSize(p.board)
  {
    if BoardSize(p.board) > BOARD_LIMIT {
      CountRevision(p.(board := DropForCount(p.board), dropped := p.dropped + 1));
    }
  }

  lemma {:induction false} TrimRevision(p: Producer, size: Snapshot -> nat)
    ensures Trimmed(p, size).revision == p.revision
    decreases BoardSize(p.board)
  {
    hide SnapshotValue;
    if !Publishable(p, size) {
      DropShrinks(p.board);
      TrimRevision(p.(board := DropForBytes(p.board), dropped := p.dropped + 1), size);
    }
  }

  /** The snapshot that follows lists an ending event last among the tombstones, any other last among the active. */
  lemma {:induction false} PostIsPublished(p: Producer, e: Event, size: Snapshot -> nat)
    requires Consistent(p) && Step(p, Post(e), size).dropped == p.dropped
    ensures var s := SnapshotValue(Step(p, Post(e), size));
            && (Ends(e) ==> s.tombstones != [] && s.tombstones[|s.tombstones| - 1] == e && e !in s.events)
            && (!Ends(e) ==> s.events != [] && s.events[|s.events| - 1] == e && e !in s.tombstones)
  {
    hide Consistent, StateKey, Posted, Step, BoardShape, Ends;
    var k := StateKey(e);
    PostFiles(p, e, size, k);
    BoardIsShaped(p);
    PostedExactly(p.board, e, k);
    PostedShape(p.board, e);
    NotListed(Posted(p.board, e), e);
  }

  lemma NotListed(b: Board, e: Event)
    requires BoardShape(b)
    ensures StateKey(e) !in b.active.at ==> e !in ListValues(b.active)
    ensures StateKey(e) !in b.tombstones.at ==> e !in ListValues(b.tombstones)
    ensures |ListValues(b.active)| == |b.active.keys| && |ListValues(b.tombstones)| == |b.tombstones.keys|
    ensures forall i :: 0 <= i < |b.active.keys| ==>
      b.active.keys[i] in b.active.at && ListValues(b.active)[i] == b.active.at[b.active.keys[i]]
    ensures forall i :: 0 <= i < |b.tombstones.keys| ==>
      b.tombstones.keys[i] in b.tombstones.at && ListValues(b.tombstones)[i] == b.tombstones.at[b.tombstones.keys[i]]
  {
    hide StateKey;
    ListedUnderKeys(b.active);
    ListedUnderKeys(b.tombstones);
  }

  lemma ListedUnderKeys(d: Dict<EventKey, Event>)
    requires Filed(d)
    ensures |ListValues(d)| == |d.keys|
    ensures forall i :: 0 <= i < |d.keys| ==> d.keys[i] in d.at && ListValues(d)[i] == d.at[d.keys[i]]
    ensures forall x :: x in ListValues(d) ==> StateKey(x) in d.at
  {
    hide StateKey;
    forall x | x in ListValues(d) ensures StateKey(x) in d.at {
      var i :| 0 <= i < |ListValues(d)| && ListValues(d)[i] == x;
      assert d.keys[i] in d.keys;
    }
  }
}
