/**
 The observer's snapshot dispatcher: a one-slot queue in front of a worker that sends only the newest
 snapshot, retries while it is current, and may be overtaken between its check and its send.
 */
module Dispatcher {
  import opened Wrappers

  /** A queued snapshot with the generation that its send was given. */
  datatype Item<+S> = Item(generation: nat, snapshot: S)

  /** The slot holds at most one item; after a close it holds the end mark instead. */
  datatype Slot<+S> = Free | Holds(item: Item<S>) | End

  /**
   `cleared` says that the worker has just found its item current; `parked` that it is past the first
   round of attempts, retrying at long intervals.
   */
  datatype Dispatcher<+S> = Dispatcher(
    generation: nat, closed: bool, slot: Slot<S>, hand: Option<Item<S>>, cleared: bool, parked: bool, ended: bool,
    sent: map<nat, S>, delivered: seq<Item<S>>, refused: set<nat>)

  datatype Attempt = Delivered | Unreachable | Unencodable

  datatype Step<+S> =
    | Send(snapshot: S)
    | Close
    | DiscardPending
    | Take
    | Check
    | Park
    | Transmit(outcome: Attempt)

  function Initial<S>(): Dispatcher<S> {
    Dispatcher(0, false, Free, None, false, false, false, map[], [], {})
  }

  predicate Superseded<S>(d: Dispatcher<S>, generation: nat) {
    d.closed || generation != d.generation
  }

  function AfterSend<S>(d: Dispatcher<S>, snapshot: S): Dispatcher<S> {
    if d.closed then d
    else
      var g := d.generation + 1;
      d.(generation := g, slot := Holds(Item(g, snapshot)), sent := d.sent[g := snapshot])
  }

  function AfterClose<S>(d: Dispatcher<S>): Dispatcher<S> {
    if d.closed then d else d.(closed := true, generation := d.generation + 1, slot := End)
  }

  /** Discarding empties the slot whatever it holds. */
  function AfterDiscard<S>(d: Dispatcher<S>): Dispatcher<S> {
    d.(generation := d.generation + 1, slot := Free)
  }

  function Apply<S>(d: Dispatcher<S>, s: Step<S>): Dispatcher<S> {
    match s
    case Send(snapshot) => AfterSend(d, snapshot)
    case Close => AfterClose(d)
    case DiscardPending => AfterDiscard(d)
    case Take =>
      if d.hand.Some? || d.ended || d.slot.Free? then d
      else if d.slot.End? then d.(slot := Free, ended := true)
      else d.(slot := Free, hand := Some(d.slot.item), cleared := false, parked := false)
    case Check =>
      if d.hand.None? then d
      else if Superseded(d, d.hand.value.generation) then d.(hand := None, cleared := false)
      else d.(cleared := true)
    case Park => if d.hand.None? then d else d.(cleared := false, parked := true)
    case Transmit(outcome) =>
      if d.hand.None? || !d.cleared then d
      else
        match outcome
        case Delivered => d.(hand := None, cleared := false, delivered := d.delivered + [d.hand.value])
        case Unreachable => d.(cleared := false)
        case Unencodable =>
          // the first refusal parks the item, the second drops it
          if !d.parked then d.(cleared := false, parked := true)
          else d.(hand := None, cleared := false, refused := d.refused + {d.hand.value.generation})
  }

  function Run<S>(d: Dispatcher<S>, steps: seq<Step<S>>): Dispatcher<S>
    decreases |steps|
  {
    if steps == [] then d else Run(Apply(d, steps[0]), steps[1..])
  }

  // ---------------------------------------------------------------- what every step keeps

  predicate Genuine<S(==)>(d: Dispatcher<S>, i: Item<S>) {
    i.generation <= d.generation && i.generation in d.sent && d.sent[i.generation] == i.snapshot
  }

  function LastDelivered<S>(d: Dispatcher<S>): nat {
    if d.delivered == [] then 0 else d.delivered[|d.delivered| - 1].generation
  }

  /** The generation of what was last taken from the slot, delivered or still in hand. */
  predicate Ordered<S>(d: Dispatcher<S>) {
    && (d.hand.Some? ==> d.hand.value.generation > LastDelivered(d))
    && (d.slot.Holds? ==> d.slot.item.generation > LastDelivered(d))
    && (d.slot.Holds? && d.hand.Some? ==> d.slot.item.generation > d.hand.value.generation)
    && LastDelivered(d) <= d.generation
  }

  predicate Increasing<S>(items: seq<Item<S>>) {
    forall i, j :: 0 <= i < j < |items| ==> items[i].generation < items[j].generation
  }

  /** A generation that was sent and not yet superseded. */
  predicate Live<S>(d: Dispatcher<S>) {
    !d.closed && d.generation in d.sent
  }

  predicate Settled<S>(delivered: seq<Item<S>>, refused: set<nat>, g: nat) {
    g in refused || exists i :: 0 <= i < |delivered| && delivered[i].generation == g
  }

  /** The newest snapshot waits in the slot, is in the worker's hand, was delivered, or cannot be encoded. */
  predicate NewestKept<S>(d: Dispatcher<S>) {
    Live(d) ==>
      || (d.slot.Holds? && d.slot.item.generation == d.generation)
      || (d.hand.Some? && d.hand.value.generation == d.generation)
      || Settled(d.delivered, d.refused, d.generation)
  }

  ghost predicate Consistent<S(!new)>(d: Dispatcher<S>) {
    && Ordered(d) && Increasing(d.delivered) && NewestKept(d)
    && (d.slot.Holds? ==> Genuine(d, d.slot.item)) && (d.hand.Some? ==> Genuine(d, d.hand.value))
    && (forall i :: 0 <= i < |d.delivered| ==> Genuine(d, d.delivered[i]))
    && (forall g :: g in d.sent ==> g <= d.generation) && (d.cleared ==> d.hand.Some?)
  }

  lemma DeliveryKeepsOrder<S>(d: Dispatcher<S>)
    requires Ordered(d) && Increasing(d.delivered) && d.hand.Some?
    ensures Increasing(d.delivered + [d.hand.value])
  {
    var more := d.delivered + [d.hand.value];
    forall i, j | 0 <= i < j < |more| ensures more[i].generation < more[j].generation {
      if j == |d.delivered| && i < |d.delivered| - 1 {
        assert d.delivered[i].generation < d.delivered[|d.delivered| - 1].generation;
      }
    }
  }

  lemma ProducersConsistent<S(!new)>(d: Dispatcher<S>, s: Step<S>)
    requires Consistent(d) && (s.Send? || s.Close? || s.DiscardPending?)
    ensures Consistent(Apply(d, s))
  {
    hide Increasing, Settled;
  }

  lemma WorkerConsistent<S(!new)>(d: Dispatcher<S>, s: Step<S>)
    requires Consistent(d) && (s.Take? || s.Check? || s.Park?)
    ensures Consistent(Apply(d, s))
  {
    hide Increasing, Settled;
  }

  lemma DeliveredConsistent<S(!new)>(d: Dispatcher<S>)
    requires Consistent(d) && d.hand.Some? && d.cleared
    ensures Consistent(Apply(d, Transmit(Delivered)))
  {
    hide Increasing, Settled;
    DeliveryKeepsOrder(d);
    SettlesMore(d, d.generation);
  }

  lemma SettlesMore<S>(d: Dispatcher<S>, g: nat)
    requires d.hand.Some?
    ensures var more := d.delivered + [d.hand.value];
            Settled(more, d.refused, g) == (Settled(d.delivered, d.refused, g) || g == d.hand.value.generation)
  {
    var more := d.delivered + [d.hand.value];
    assert more[|d.delivered|] == d.hand.value;
    assert forall i :: 0 <= i < |d.delivered| ==> more[i] == d.delivered[i];
  }

  lemma FailedConsistent<S(!new)>(d: Dispatcher<S>, outcome: Attempt)
    requires Consistent(d) && !outcome.Delivered?
    ensures Consistent(Apply(d, Transmit(outcome)))
  {
    hide Increasing;
  }

  lemma {:induction false} StepConsistent<S(!new)>(d: Dispatcher<S>, s: Step<S>)
    requires Consistent(d)
    ensures Consistent(Apply(d, s))
  {
    hide Consistent, AfterSend, AfterClose, AfterDiscard;
    if s.Send? || s.Close? || s.DiscardPending? {
      ProducersConsistent(d, s);
    } else if s.Take? || s.Check? || s.Park? {
      WorkerConsistent(d, s);
    } else if !s.outcome.Delivered? {
      FailedConsistent(d, s.outcome);
    } else if d.hand.Some? && d.cleared {
      DeliveredConsistent(d);
    }
  }

  lemma {:induction false} RunConsistent<S(!new)>(d: Dispatcher<S>, steps: seq<Step<S>>)
    requires Consistent(d)
    ensures Consistent(Run(d, steps))
    decreases |steps|
  {
    hide Consistent, Apply;
    if steps != [] {
      StepConsistent(d, steps[0]);
      RunConsistent(Apply(d, steps[0]), steps[1..]);
    }
  }

  /**
   In every interleaving: deliveries are genuine and in the order of their sends, none twice, and the
   newest snapshot is never lost while nothing superseded it.
   */
  lemma {:induction false} NewestOnly<S(!new)>(steps: seq<Step<S>>)
    ensures var d := Run(Initial<S>(), steps);
            && Increasing(d.delivered) && NewestKept(d)
            && (forall i :: 0 <= i < |d.delivered| ==> Genuine(d, d.delivered[i]))
  {
    RunConsistent(Initial<S>(), steps);
  }

  /** An item nothing overtook: sending delivers it, a failure keeps it, and only its second refusal drops it. */
  lemma {:induction false} CurrentIsDelivered<S(!new)>(d: Dispatcher<S>)
    requires d.hand.Some? && !Superseded(d, d.hand.value.generation)
    ensures Run(d, [Check, Transmit(Delivered)]).delivered == d.delivered + [d.hand.value]
    ensures Run(d, [Check, Transmit(Unreachable)]).hand == d.hand
    ensures Run(d, [Check, Transmit(Unencodable)]).hand == if d.parked then None else d.hand
  {
    Twice(d, Check, Transmit(Delivered));
    Twice(d, Check, Transmit(Unreachable));
    Twice(d, Check, Transmit(Unencodable));
  }

  lemma Twice<S>(d: Dispatcher<S>, s: Step<S>, t: Step<S>)
    ensures Run(d, [s, t]) == Apply(Apply(d, s), t)
  {
    hide Apply;
    var e := Apply(d, s);
    assert [s, t][1..] == [t] && [t][1..] == [];
    assert Run(e, [t]) == Run(Apply(e, t), []);
  }

  /** A snapshot sent to an open dispatcher with an idle worker is the next one delivered. */
  lemma {:induction false} SentIsDelivered<S(!new)>(d: Dispatcher<S>, snapshot: S)
    requires !d.closed && !d.ended && d.hand.None?
    ensures var q := Run(Run(d, [Send(snapshot), Take]), [Check, Transmit(Delivered)]);
            q.delivered == d.delivered + [Item(d.generation + 1, snapshot)] && q.hand.None? && q.slot.Free?
  {
    Twice(d, Send(snapshot), Take);
    Twice(Run(d, [Send(snapshot), Take]), Check, Transmit(Delivered));
  }

  /** An item overtaken by a later send, a discard or the close before its check is never delivered. */
  lemma {:induction false} OvertakenIsDropped<S(!new)>(d: Dispatcher<S>, s: Step<S>, outcome: Attempt)
    requires Consistent(d) && d.hand.Some? && !d.closed && (s.Send? || s.Close? || s.DiscardPending?)
    ensures var q := Run(Run(d, [s, Check]), [Transmit(outcome), Check]);
            q.hand.None? && q.delivered == d.delivered
  {
    hide Increasing, NewestKept;
    Twice(d, s, Check);
    Twice(Run(d, [s, Check]), Transmit(outcome), Check);
  }

  /** Every send, discard and close overtakes whatever was sent before. */
  lemma {:induction false} ProducersOvertake<S(!new)>(d: Dispatcher<S>, s: Step<S>)
    requires Consistent(d) && !d.closed && (s.Send? || s.Close? || s.DiscardPending?)
    ensures var q := Apply(d, s);
            && q.generation == d.generation + 1 && (forall g :: g in d.sent ==> Superseded(q, g))
            && (q.closed <==> s.Close?) && (q.slot.End? <==> s.Close?) && (q.slot.Free? <==> s.DiscardPending?)
            && q == d.(generation := q.generation, closed := q.closed, slot := q.slot, sent := q.sent)
  {
    hide Increasing, NewestKept, Ordered;
  }

  /** An attempt is made only on an item found current since it was taken, parked or last attempted. */
  lemma {:induction false} AttemptNeedsCheck<S(!new)>(d: Dispatcher<S>, outcome: Attempt, next: Attempt)
    requires Consistent(d)
    ensures d.hand.None? ==> Run(d, [Take, Transmit(outcome)]) == Apply(d, Take)
    ensures d.hand.Some? ==> Run(d, [Park, Transmit(outcome)]) == Apply(d, Park)
    ensures Run(d, [Transmit(outcome), Transmit(next)]) == Apply(d, Transmit(outcome))
  {
    hide Increasing, NewestKept, Ordered;
    Twice(d, Take, Transmit(outcome));
    Twice(d, Park, Transmit(outcome));
    Twice(d, Transmit(outcome), Transmit(next));
  }

  /** An item that cannot be encoded gets one more attempt after its first round, and is then given up. */
  lemma {:induction false} RefusedTwiceIsDropped<S(!new)>(d: Dispatcher<S>)
    requires d.hand.None? && !d.ended && d.slot.Holds? && !Superseded(d, d.slot.item.generation)
    ensures var once := Run(Apply(d, Take), [Check, Transmit(Unencodable)]);
            var twice := Run(once, [Check, Transmit(Unencodable)]);
            && once.hand == Some(d.slot.item) && once.refused == d.refused && once.delivered == d.delivered
            && twice.hand.None? && twice.refused == d.refused + {d.slot.item.generation}
            && Run(Apply(Apply(d, Take), Park), [Check, Transmit(Unencodable)]).hand.None?
  {
    var t := Apply(d, Take);
    Twice(t, Check, Transmit(Unencodable));
    Twice(Run(t, [Check, Transmit(Unencodable)]), Check, Transmit(Unencodable));
    Twice(Apply(t, Park), Check, Transmit(Unencodable));
  }

  /** A closed dispatcher's idle worker ends at its next turn. */
  lemma {:induction false} ClosedEnds<S(!new)>(d: Dispatcher<S>)
    requires !d.closed && !d.ended && d.hand.None?
    ensures var q := Run(d, [Close, Take]); q.closed && q.ended && q.slot.Free? && q.hand.None?
  {
    Twice(d, Close, Take);
  }

  /** Closed, and nothing in hand was found current before the close. */
  predicate Quiet<S>(d: Dispatcher<S>) {
    d.closed && !d.cleared && !d.slot.Holds?
  }

  /** From then on nothing is ever delivered. */
  lemma {:induction false} QuietForever<S(!new)>(d: Dispatcher<S>, steps: seq<Step<S>>)
    requires Quiet(d)
    ensures Run(d, steps).delivered == d.delivered && (d.ended ==> Run(d, steps).ended)
    decreases |steps|
  {
    if steps != [] {
      QuietForever(Apply(d, steps[0]), steps[1..]);
    }
  }

  /** After a close at most the attempt already under way delivers, and nothing after it. */
  lemma {:induction false} ClosedDeliversNoMore<S(!new)>(d: Dispatcher<S>, steps: seq<Step<S>>)
    requires Consistent(d) && !d.closed
    ensures !d.cleared ==> Run(Apply(d, Close), steps).delivered == d.delivered
    ensures d.cleared ==> Run(Run(d, [Close, Transmit(Delivered)]), steps).delivered == d.delivered + [d.hand.value]
  {
    hide Increasing, NewestKept, Ordered, Run;
    var c := Apply(d, Close);
    if d.cleared {
      Twice(d, Close, Transmit(Delivered));
      QuietForever(Apply(c, Transmit(Delivered)), steps);
    } else {
      QuietForever(c, steps);
    }
  }

  // ---------------------------------------------------------------- the dispatcher

  class ObserverEventDispatcher<S(!new)> {
    var generation: nat
    var closed: bool
    var slot: Slot<S>
    /** The worker's own item, and the history of its deliveries. */
    var hand: Option<Item<S>>
    var cleared: bool
    var parked: bool
    var ended: bool
    ghost var sent: map<nat, S>
    ghost var delivered: seq<Item<S>>
    ghost var refused: set<nat>

    ghost function Model(): Dispatcher<S>
      reads this
    {
      Dispatcher(generation, closed, slot, hand, cleared, parked, ended, sent, delivered, refused)
    }

    ghost predicate Valid()
      reads this
    {
      Consistent(Model())
    }

    constructor ()
      ensures Valid() && Model() == Initial()
    {
      generation, closed, slot, hand, cleared, parked, ended := 0, false, Free, None, false, false, false;
      sent, delivered, refused := map[], [], {};
    }

    /** A closed dispatcher refuses the snapshot. */
    method SendSnapshot(snapshot: S) returns (accepted: bool)
      requires Valid()
      modifies this`generation, this`slot, this`sent
      ensures Valid() && Model() == Apply(old(Model()), Send(snapshot)) && accepted == !closed
    {
      hide Consistent;
      StepConsistent(Model(), Send(snapshot));
      if closed {
        return false;
      }
      generation := generation + 1;
      slot, sent := Holds(Item(generation, snapshot)), sent[generation := snapshot];
      return true;
    }

    method CloseDispatcher()
      requires Valid()
      modifies this`generation, this`slot, this`closed
      ensures Valid() && Model() == Apply(old(Model()), Close)
    {
      hide Consistent;
      StepConsistent(Model(), Close);
      if closed {
        return;
      }
      closed, generation, slot := true, generation + 1, End;
    }

    method Discard()
      requires Valid()
      modifies this`generation, this`slot
      ensures Valid() && Model() == Apply(old(Model()), DiscardPending)
    {
      hide Consistent;
      StepConsistent(Model(), DiscardPending);
      generation, slot := generation + 1, Free;
    }

    /** The worker fetches the slot's content; with the end mark it ends. */
    method TakeItem()
      requires Valid() && hand.None? && !ended
      modifies this`slot, this`hand, this`cleared, this`parked, this`ended
      ensures Valid() && Model() == Apply(old(Model()), Take)
    {
      hide Consistent;
      StepConsistent(Model(), Take);
      if slot.End? {
        slot, ended := Free, true;
      } else if slot.Holds? {
        slot, hand, cleared, parked := Free, Some(slot.item), false, false;
      }
    }

    /** Drop an item that a later send, a discard or the close has overtaken. */
    method CheckCurrent() returns (current: bool)
      requires Valid() && hand.Some?
      modifies this`hand, this`cleared
      ensures Valid() && Model() == Apply(old(Model()), Check)
      ensures current == !Superseded(old(Model()), old(hand).value.generation)
    {
      hide Consistent;
      StepConsistent(Model(), Check);
      current := !closed && hand.value.generation == generation;
      if current {
        cleared := true;
      } else {
        hand, cleared := None, false;
      }
    }

    /** The first round of attempts is over: its number or its time is used up. */
    method ParkItem()
      requires Valid() && hand.Some?
      modifies this`cleared, this`parked
      ensures Valid() && Model() == Apply(old(Model()), Park)
    {
      hide Consistent;
      StepConsistent(Model(), Park);
      cleared, parked := false, true;
    }

    method RecordAttempt(outcome: Attempt)
      requires Valid() && hand.Some? && cleared
      modifies this`hand, this`cleared, this`parked, this`delivered, this`refused
      ensures Valid() && Model() == Apply(old(Model()), Transmit(outcome))
    {
      hide Consistent;
      StepConsistent(Model(), Transmit(outcome));
      cleared := false;
      if outcome.Delivered? {
        delivered := delivered + [hand.value];
        hand := None;
      } else if outcome.Unencodable? && !parked {
        parked := true;
      } else if outcome.Unencodable? {
        refused := refused + {hand.value.generation};
        hand := None;
      }
    }
  }
}
