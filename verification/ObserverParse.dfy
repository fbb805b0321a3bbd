/** What a consumer makes of any snapshot, genuine or not: exactly which are refused, and what the others become. */
module ObserverParse {
  import opened Wrappers
  import opened OrderedDict
  import opened Observer
  import opened ObserverStream

  /** The event listed last under a key. */
  predicate LastUnder(events: seq<Event>, k: EventKey, e: Event) {
    exists i :: 0 <= i < |events| && events[i] == e && StateKey(e) == k
                && forall j :: i < j < |events| ==> StateKey(events[j]) != k
  }

  function KeySet(events: seq<Event>): set<EventKey> {
    set e | e in events :: StateKey(e)
  }

  lemma KeySetFirst(events: seq<Event>)
    requires events != []
    ensures KeySet(events) == KeySet(events[1..]) + {StateKey(events[0])}
  {
    hide StateKey;
    assert events[0] in events;
    forall k | k in KeySet(events) ensures k in KeySet(events[1..]) + {StateKey(events[0])} {
      var e :| e in events && StateKey(e) == k;
      assert e == events[0] || e in events[1..];
    }
  }

  /** Listed events are filed under their keys, the last listed winning, each key once. */
  lemma {:induction false} CollectedExactly(d: Dict<EventKey, Event>, events: seq<Event>, k: EventKey)
    requires Valid(d) && AllSchema(events)
    ensures Collected(d, events).Some?
    ensures var r := Collected(d, events).value;
            && Valid(r) && r.at.Keys == d.at.Keys + KeySet(events)
            && (k in KeySet(events) ==> k in r.at && LastUnder(events, k, r.at[k]))
            && (k !in KeySet(events) && k in d.at ==> k in r.at && r.at[k] == d.at[k])
    decreases |events|
  {
    hide StateKey, Valid, LastUnder, KeySet;
    if events == [] {
      NoKeys();
    } else {
      var next := Put(d, StateKey(events[0]), events[0]);
      PutValid(d, StateKey(events[0]), events[0]);
      KeySetFirst(events);
      CollectedExactly(next, events[1..], k);
      LastLater(events, k, Collected(d, events).value.at);
    }
  }

  lemma NoKeys()
    ensures KeySet([]) == {}
  {}

  lemma LastLater(events: seq<Event>, k: EventKey, at: map<EventKey, Event>)
    requires events != []
    ensures k in KeySet(events[1..]) && k in at && LastUnder(events[1..], k, at[k]) ==> LastUnder(events, k, at[k])
    ensures k == StateKey(events[0]) && k !in KeySet(events[1..]) ==> LastUnder(events, k, events[0])
  {
    hide StateKey;
    if k in at && LastUnder(events[1..], k, at[k]) {
      var i :| 0 <= i < |events[1..]| && events[1..][i] == at[k] && StateKey(at[k]) == k
               && forall j :: i < j < |events[1..]| ==> StateKey(events[1..][j]) != k;
      assert events[i + 1] == at[k];
      forall j | i + 1 < j < |events| ensures StateKey(events[j]) != k {
        assert events[1..][j - 1] == events[j];
      }
    }
    if k == StateKey(events[0]) && k !in KeySet(events[1..]) {
      forall j | 0 < j < |events| ensures StateKey(events[j]) != k {
        assert events[j] in events[1..];
      }
    }
  }

  lemma {:induction false} DistinctSize<K>(s: seq<K>, keys: set<K>)
    requires Distinct(s) && forall k :: k in keys <==> k in s
    ensures |s| == |keys|
    decreases |s|
  {
    if s == [] {
      assert keys == {};
    } else {
      var rest := keys - {s[0]};
      assert s[0] in keys && s[0] !in s[1..];
      forall k ensures k in rest <==> k in s[1..] {
        if k in s && k != s[0] {
          assert k in s[1..];
        }
      }
      DistinctSize(s[1..], rest);
      assert keys == rest + {s[0]};
    }
  }

  lemma CollectedSize(events: seq<Event>)
    requires AllSchema(events)
    ensures Collected(Empty(), events).Some? && |Collected(Empty(), events).value.keys| == |KeySet(events)|
  {
    hide StateKey, KeySet, Collected;
    var none: Dict<EventKey, Event> := Empty();
    assert Valid(none);
    CollectedExactly(none, events, EventKey("", "", ""));
    var r := Collected(none, events).value;
    assert r.at.Keys == KeySet(events);
    DistinctSize(r.keys, r.at.Keys);
  }

  /** The removed targets of a snapshot are the non-empty ones listed, each once. */
  lemma {:induction false} TargetsExactly(seen: seq<Id>, removed: seq<Id>, t: Id)
    requires Distinct(seen)
    ensures Distinct(Targets(seen, removed))
    ensures t in Targets(seen, removed) <==> t in seen || (t in removed && t != "")
    decreases |removed|
  {
    if removed != [] {
      var r := removed[0];
      var next := if r == "" || r in seen then seen else seen + [r];
      assert t in removed <==> t == r || t in removed[1..];
      TargetsExactly(next, removed[1..], t);
    }
  }

  /**
   A snapshot is understood exactly when its header is sound, every listed event carries the schema, and
   the distinct events and the listed targets are at most 64.
   */
  lemma {:induction false} ParsedIff(s: Snapshot)
    ensures Parsed(s).Some? <==>
      && s.schema && s.epoch >= 0 && s.revision >= 0 && s.dropped >= 0 && (s.complete <==> s.dropped == 0)
      && AllSchema(s.events) && AllSchema(s.tombstones)
      && |KeySet(s.events)| + |KeySet(s.tombstones)| + |s.removed| <= 64
  {
    hide KeySet, Collected, AllSchema, Targets;
    CollectedRefuses(Empty(), s.events);
    CollectedRefuses(Empty(), s.tombstones);
    if AllSchema(s.events) && AllSchema(s.tombstones) {
      CollectedSize(s.events);
      CollectedSize(s.tombstones);
    }
  }

  /** What an understood snapshot becomes: its label, its losses, its targets, and the last event under each key. */
  lemma {:induction false} ParsedExactly(s: Snapshot, k: EventKey, t: Id)
    requires Parsed(s).Some?
    ensures var n := Parsed(s).value;
            && n.epoch == s.epoch && n.revision == s.revision && n.dropped == s.dropped
            && n.active.at.Keys == KeySet(s.events) && n.tombstones.at.Keys == KeySet(s.tombstones)
            && (k in KeySet(s.events) ==> LastUnder(s.events, k, n.active.at[k]))
            && (k in KeySet(s.tombstones) ==> LastUnder(s.tombstones, k, n.tombstones.at[k]))
            && (t in n.removed <==> t in s.removed && t != "") && Distinct(n.removed)
  {
    hide KeySet, Collected, Targets, LastUnder, StateKey, AllSchema;
    ParsedIff(s);
    var none: Dict<EventKey, Event> := Empty();
    assert Valid(none);
    CollectedExactly(none, s.events, k);
    CollectedExactly(none, s.tombstones, k);
    TargetsExactly([], s.removed, t);
  }

  /** An understood snapshot is taken exactly when its label is newer and, within an epoch, no loss is taken back. */
  lemma {:induction false} TakenIff(c: Consumer, s: Snapshot)
    requires Parsed(s).Some? && Parsed(s).value != c
    ensures Consumed(c, s) == Parsed(s).value <==>
      s.epoch > c.epoch || (s.epoch == c.epoch && s.revision > c.revision && s.dropped >= c.dropped)
  {
    hide Collected, Targets;
  }

  /** Over a run: the snapshot of every operation that returns one is among the published. */
  lemma {:induction false} ReturnedIsPublished(p: Producer, ops: seq<Op>, size: Snapshot -> nat, i: nat)
    requires i < |ops|
    requires || ops[i].Post? || ops[i].Publish? || ops[i].Reset?
             || (ops[i].Prune? && ops[i].target != "") || (ops[i].PruneProtocol? && ops[i].target != "")
    ensures SnapshotValue(Run(p, ops[..i + 1], size)) in Published(p, ops, size)
    decreases |ops|
  {
    hide Step, SnapshotValue;
    var q := Step(p, ops[0], size);
    assert ops[..i + 1][0] == ops[0] && ops[..i + 1][1..] == ops[1..][..i];
    if i > 0 {
      ReturnedIsPublished(q, ops[1..], size, i - 1);
    }
  }
}
