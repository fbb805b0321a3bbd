/** What pruning a target really removes from the board. */
module ObserverPrune {
  import opened Wrappers
  import opened OrderedDict
  import opened Observer
  import opened ObserverBounds

  predicate OtherReceivers(e: Event, target: Id) {
    Without(Receivers(e), {target}) != []
  }

  predicate Survives(e: Event, target: Id) {
    !Mentions(e, target) || OtherReceivers(e, target)
  }

  function Survivor(e: Event, target: Id): Event {
    if Mentions(e, target) && OtherReceivers(e, target) then PrunedEvent(e, target) else e
  }

  /** After visiting `keys`, exactly the survivors are kept, with the target dropped from their receivers. */
  lemma {:induction false} PrunedContents(d: Dict<EventKey, Event>, keys: seq<EventKey>, target: Id, k: EventKey)
    requires Distinct(keys)
    ensures var r := PrunedFrom(d, keys, target);
            && (k in r.at <==> k in d.at && (k in keys ==> Survives(d.at[k], target)))
            && (k in r.at ==> r.at[k] == if k in keys then Survivor(d.at[k], target) else d.at[k])
    decreases |keys|
  {
    hide Mentions, PrunedEvent;
    if keys != [] {
      assert forall i :: 0 < i < |keys| ==> keys[i] != keys[0];
      assert keys[0] !in keys[1..];
      PrunedContents(PrunedAt(d, keys[0], target), keys[1..], target, k);
      assert k in keys <==> k == keys[0] || k in keys[1..];
    }
  }

  /** A survivor still mentions the target exactly when it is addressed to it and has another receiver. */
  lemma SurvivorMentions(e: Event, target: Id)
    requires Survives(e, target)
    ensures Mentions(Survivor(e, target), target) <==> EventTarget(e) == Some(target) && OtherReceivers(e, target)
  {
    hide StateKey;
    if Mentions(e, target) {
      PruneKeepsKey(e, target);
      assert Receivers(PrunedEvent(e, target)) == Without(Receivers(e), {target});
    }
  }

  predicate MentionedAt(d: Dict<EventKey, Event>, k: EventKey, target: Id) {
    k in d.at && Mentions(d.at[k], target)
  }

  predicate AddressedWithOthers(d: Dict<EventKey, Event>, k: EventKey, target: Id) {
    k in d.at && EventTarget(d.at[k]) == Some(target) && OtherReceivers(d.at[k], target)
  }

  /**
   Pruning is documented to remove every retained event for the target. It does so exactly when no
   retained event addressed to the target also has another receiver.
   */
  lemma {:induction false} PruneRemovesEveryMention(d: Dict<EventKey, Event>, target: Id)
    requires Filed(d)
    ensures var r := PrunedFrom(d, d.keys, target);
            (forall k :: !MentionedAt(r, k, target)) <==> (forall k :: !AddressedWithOthers(d, k, target))
  {
    var r := PrunedFrom(d, d.keys, target);
    hide MentionedAt, AddressedWithOthers, PrunedFrom, Filed;
    if k :| MentionedAt(r, k, target) {
      MentionedIff(d, target, k);
    }
    forall k ensures AddressedWithOthers(d, k, target) ==> MentionedAt(r, k, target) {
      MentionedIff(d, target, k);
    }
  }

  lemma MentionedIff(d: Dict<EventKey, Event>, target: Id, k: EventKey)
    requires Filed(d)
    ensures MentionedAt(PrunedFrom(d, d.keys, target), k, target) <==> AddressedWithOthers(d, k, target)
  {
    hide Mentions, PrunedFrom, OtherReceivers, StateKey, EventTarget;
    PrunedContents(d, d.keys, target, k);
    if k in d.at && Survives(d.at[k], target) {
      SurvivorMentions(d.at[k], target);
    }
    AddressedMentions(d, k, target);
  }

  lemma AddressedMentions(d: Dict<EventKey, Event>, k: EventKey, target: Id)
    ensures AddressedWithOthers(d, k, target) ==> Mentions(d.at[k], target) && Survives(d.at[k], target)
  {}

  /** An event addressed to "a" and received by "b" survives the pruning of "a" and still names it. */
  lemma PruneLeavesAddressee()
    ensures var e := Event(true, "item", false, "a", "", "", Some(Item("i", "", Some(["b"]), false, 0)), 0);
            var d := Put(Empty(), StateKey(e), e);
            Filed(d) && StateKey(e) in PrunedFrom(d, d.keys, "a").at
            && Mentions(PrunedFrom(d, d.keys, "a").at[StateKey(e)], "a")
  {
    var e := Event(true, "item", false, "a", "", "", Some(Item("i", "", Some(["b"]), false, 0)), 0);
    var d := Put(Empty(), StateKey(e), e);
    assert d.keys == [StateKey(e)];
    assert Receivers(e) == ["b"] && Without(["b"], {"a"}) == ["b"];
    PrunedContents(d, d.keys, "a", StateKey(e));
    SurvivorMentions(e, "a");
  }
}
