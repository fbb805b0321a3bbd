/**
 The order-statistic multiset: a treap whose nodes carry subtree sizes and totals.

 `Tree` is the value-level specification of the mutable nodes: its functions rotate and
 refresh exactly where the node methods do.  Node priorities are arbitrary here, so every
 result holds for whatever the priority hash returns.
 */
module Treap {
  import opened Wrappers

  datatype Tree = Leaf | Node(left: Tree, key: int, priority: int, count: int, size: int, total: int, right: Tree)

  // ---------------------------------------------------------------- what a well-formed treap is

  /** An exclusive bound on keys; `None` is unbounded. */
  type Bound = Option<int>

  predicate Over(lo: Bound, x: int) { lo.Some? ==> lo.value < x }

  predicate Under(x: int, hi: Bound) { hi.Some? ==> x < hi.value }

  /** Binary-search order: every key lies strictly between the bounds. */
  predicate Between(lo: Bound, t: Tree, hi: Bound)
    decreases t
  {
    t.Node? ==>
      && Over(lo, t.key) && Under(t.key, hi)
      && Between(lo, t.left, Some(t.key)) && Between(Some(t.key), t.right, hi)
  }

  /** `t` is empty or its root priority is at least `p`. */
  predicate RootAtLeast(t: Tree, p: int) {
    t.Node? ==> p <= t.priority
  }

  predicate HeapOrdered(t: Tree) {
    t.Node? ==>
      && HeapOrdered(t.left) && HeapOrdered(t.right)
      && RootAtLeast(t.left, t.priority) && RootAtLeast(t.right, t.priority)
  }

  function SizeOf(t: Tree): int { if t.Leaf? then 0 else t.size }

  function TotalOf(t: Tree): int { if t.Leaf? then 0 else t.total }

  /** Every count is positive and every size and total agrees with the children. */
  predicate Augmented(t: Tree) {
    t.Node? ==>
      && Augmented(t.left) && Augmented(t.right)
      && 0 < t.count
      && t.size == t.count + SizeOf(t.left) + SizeOf(t.right)
      && t.total == t.key * t.count + TotalOf(t.left) + TotalOf(t.right)
  }

  predicate Sound(t: Tree) {
    Between(None, t, None) && HeapOrdered(t) && Augmented(t)
  }

  /** How often `x` occurs in the multiset a tree stands for. */
  function Occurrences(t: Tree, x: int): int {
    if t.Leaf? then 0
    else Occurrences(t.left, x) + (if x == t.key then t.count else 0) + Occurrences(t.right, x)
  }

  // ---------------------------------------------------------------- operations on trees

  /** `_refresh`: recompute size and total from the children. */
  function Refreshed(left: Tree, key: int, priority: int, count: int, right: Tree): Tree {
    Node(left, key, priority, count,
         count + SizeOf(left) + SizeOf(right), key * count + TotalOf(left) + TotalOf(right), right)
  }

  function RotateRight(t: Tree): Tree
    requires t.Node? && t.left.Node?
  {
    var r := t.left;
    Refreshed(r.left, r.key, r.priority, r.count, Refreshed(r.right, t.key, t.priority, t.count, t.right))
  }

  function RotateLeft(t: Tree): Tree
    requires t.Node? && t.right.Node?
  {
    var r := t.right;
    Refreshed(Refreshed(t.left, t.key, t.priority, t.count, r.left), r.key, r.priority, r.count, r.right)
  }

  function Insert(t: Tree, key: int, priority: int): (r: Tree)
    ensures r.Node?
  {
    if t.Leaf? then
      Node(Leaf, key, priority, 1, 1, key, Leaf)
    else if key == t.key then
      Refreshed(t.left, t.key, t.priority, t.count + 1, t.right)
    else if key < t.key then
      var left := Insert(t.left, key, priority);
      var grown := Refreshed(left, t.key, t.priority, t.count, t.right);
      if left.priority < t.priority then RotateRight(grown) else grown
    else
      var right := Insert(t.right, key, priority);
      var grown := Refreshed(t.left, t.key, t.priority, t.count, right);
      if right.priority < t.priority then RotateLeft(grown) else grown
  }

  function NodeCount(t: Tree): nat {
    if t.Leaf? then 0 else 1 + NodeCount(t.left) + NodeCount(t.right)
  }

  /** `_remove`; `None` is the "lost a value" error. */
  function Remove(t: Tree, key: int): Option<Tree>
    decreases NodeCount(t)
  {
    if t.Leaf? then None
    else if key < t.key then
      var left := Remove(t.left, key);
      if left.None? then None else Some(Refreshed(left.value, t.key, t.priority, t.count, t.right))
    else if key > t.key then
      var right := Remove(t.right, key);
      if right.None? then None else Some(Refreshed(t.left, t.key, t.priority, t.count, right.value))
    else if t.count > 1 then Some(Refreshed(t.left, t.key, t.priority, t.count - 1, t.right))
    else if t.left.Leaf? then Some(t.right)
    else if t.right.Leaf? then Some(t.left)
    else if t.left.priority < t.right.priority then
      var top := RotateRight(t);
      assert NodeCount(t.left) == 1 + NodeCount(t.left.left) + NodeCount(t.left.right);
      var right := Remove(top.right, key);
      if right.None? then None else Some(Refreshed(top.left, top.key, top.priority, top.count, right.value))
    else
      var top := RotateLeft(t);
      assert NodeCount(t.right) == 1 + NodeCount(t.right.left) + NodeCount(t.right.right);
      var left := Remove(top.left, key);
      if left.None? then None else Some(Refreshed(left.value, top.key, top.priority, top.count, top.right))
  }

  // ---------------------------------------------------------------- the operations keep it well-formed

  /** Insertion keeps the search order for any bounds around the key. */
  lemma {:induction false} InsertBetween(lo: Bound, t: Tree, hi: Bound, key: int, priority: int)
    requires Between(lo, t, hi) && Over(lo, key) && Under(key, hi)
    ensures Between(lo, Insert(t, key, priority), hi)
    decreases t
  {
    if t.Node? {
      if key < t.key {
        InsertBetween(lo, t.left, Some(t.key), key, priority);
      } else if key > t.key {
        InsertBetween(Some(t.key), t.right, hi, key, priority);
      }
    }
  }

  /** Insertion keeps heap order: a risen node's children never outrank the old root. */
  lemma {:induction false} InsertHeap(t: Tree, key: int, priority: int)
    requires HeapOrdered(t)
    ensures var r := Insert(t, key, priority);
      && HeapOrdered(r)
      && (t.Leaf? ==> r.left == Leaf && r.right == Leaf)
      && (t.Node? ==> RootAtLeast(r.left, t.priority) && RootAtLeast(r.right, t.priority))
  {
    if t.Node? {
      if key < t.key {
        InsertHeap(t.left, key, priority);
      } else if key > t.key {
        InsertHeap(t.right, key, priority);
      }
    }
  }

  /** Insertion keeps the augmentation and adds exactly one occurrence of the key. */
  lemma {:induction false} InsertCounts(t: Tree, key: int, priority: int, x: int)
    requires Augmented(t)
    ensures Augmented(Insert(t, key, priority))
    ensures Occurrences(Insert(t, key, priority), x) == Occurrences(t, x) + (if x == key then 1 else 0)
  {
    if t.Node? {
      if key < t.key {
        InsertCounts(t.left, key, priority, x);
      } else if key > t.key {
        InsertCounts(t.right, key, priority, x);
      }
    }
  }

  /** Outside its bounds a search tree holds nothing. */
  lemma {:induction false} OutsideBounds(lo: Bound, t: Tree, hi: Bound, x: int)
    requires Between(lo, t, hi) && !(Over(lo, x) && Under(x, hi))
    ensures Occurrences(t, x) == 0
    decreases t
  {
    if t.Node? {
      OutsideBounds(lo, t.left, Some(t.key), x);
      OutsideBounds(Some(t.key), t.right, hi, x);
    }
  }

  lemma {:induction false} OccurrencesNonNegative(t: Tree, x: int)
    requires Positive(t)
    ensures 0 <= Occurrences(t, x)
  {
    if t.Node? {
      OccurrencesNonNegative(t.left, x);
      OccurrencesNonNegative(t.right, x);
    }
  }

  /** Removal keeps the search order. */
  lemma {:induction false} RemoveBetween(lo: Bound, t: Tree, hi: Bound, key: int)
    requires Between(lo, t, hi)
    ensures Remove(t, key).Some? ==> Between(lo, Remove(t, key).value, hi)
    decreases NodeCount(t)
  {
    if t.Node? {
      if key < t.key {
        RemoveBetween(lo, t.left, Some(t.key), key);
      } else if key > t.key {
        RemoveBetween(Some(t.key), t.right, hi, key);
      } else if t.count > 1 {
      } else if t.left.Leaf? {
        BetweenWeaken(lo, Some(t.key), t.right, hi, hi);
      } else if t.right.Leaf? {
        BetweenWeaken(lo, lo, t.left, Some(t.key), hi);
      } else if t.left.priority < t.right.priority {
        var top := RotateRight(t);
        assert NodeCount(t.left) == 1 + NodeCount(t.left.left) + NodeCount(t.left.right);
        RemoveBetween(Some(top.key), top.right, hi, key);
      } else {
        var top := RotateLeft(t);
        assert NodeCount(t.right) == 1 + NodeCount(t.right.left) + NodeCount(t.right.right);
        RemoveBetween(lo, top.left, Some(top.key), key);
      }
    }
  }

  predicate LooserLow(lo: Bound, lo': Bound) { lo.Some? ==> lo'.Some? && lo.value <= lo'.value }

  predicate LooserHigh(hi: Bound, hi': Bound) { hi.Some? ==> hi'.Some? && hi'.value <= hi.value }

  lemma {:induction false} BetweenWeaken(lo: Bound, lo': Bound, t: Tree, hi': Bound, hi: Bound)
    requires Between(lo', t, hi') && LooserLow(lo, lo') && LooserHigh(hi, hi')
    ensures Between(lo, t, hi)
    decreases t
  {
    if t.Node? {
      BetweenWeaken(lo, lo', t.left, Some(t.key), Some(t.key));
      BetweenWeaken(Some(t.key), Some(t.key), t.right, hi', hi);
    }
  }

  /**
   Removal keeps heap order.  The root can only sink: the result outranks neither the old root nor,
   when the whole root node goes, any common lower bound of the two children.
   */
  lemma {:induction false} RemoveHeap(t: Tree, key: int, p: int)
    requires HeapOrdered(t)
    requires || RootAtLeast(t, p)
             || (t.Node? && key == t.key && t.count <= 1 && RootAtLeast(t.left, p) && RootAtLeast(t.right, p))
    ensures Remove(t, key).Some? ==> HeapOrdered(Remove(t, key).value) && RootAtLeast(Remove(t, key).value, p)
    decreases NodeCount(t)
  {
    if t.Node? {
      if key < t.key {
        RemoveHeap(t.left, key, t.priority);
      } else if key > t.key {
        RemoveHeap(t.right, key, t.priority);
      } else if t.count > 1 || t.left.Leaf? || t.right.Leaf? {
      } else if t.left.priority < t.right.priority {
        var top := RotateRight(t);
        assert NodeCount(t.left) == 1 + NodeCount(t.left.left) + NodeCount(t.left.right);
        RemoveHeap(top.right, key, top.priority);
      } else {
        var top := RotateLeft(t);
        assert NodeCount(t.right) == 1 + NodeCount(t.right.left) + NodeCount(t.right.right);
        RemoveHeap(top.left, key, top.priority);
      }
    }
  }

  /** Removal keeps the augmentation exact. */
  lemma {:induction false} RemoveAugmented(t: Tree, key: int)
    requires Augmented(t)
    ensures Remove(t, key).Some? ==> Augmented(Remove(t, key).value)
    decreases NodeCount(t)
  {
    if t.Node? {
      if key < t.key {
        RemoveAugmented(t.left, key);
      } else if key > t.key {
        RemoveAugmented(t.right, key);
      } else if t.count > 1 || t.left.Leaf? || t.right.Leaf? {
      } else if t.left.priority < t.right.priority {
        assert NodeCount(t.left) == 1 + NodeCount(t.left.left) + NodeCount(t.left.right);
        RemoveAugmented(RotateRight(t).right, key);
      } else {
        assert NodeCount(t.right) == 1 + NodeCount(t.right.left) + NodeCount(t.right.right);
        RemoveAugmented(RotateLeft(t).left, key);
      }
    }
  }

  /** Every stored multiplicity is positive. */
  predicate Positive(t: Tree) {
    t.Node? ==> 0 < t.count && Positive(t.left) && Positive(t.right)
  }

  lemma {:induction false} AugmentedPositive(t: Tree)
    requires Augmented(t)
    ensures Positive(t)
  {
    if t.Node? {
      AugmentedPositive(t.left);
      AugmentedPositive(t.right);
    }
  }

  /** Removal fails exactly for an absent key, and otherwise takes away exactly one occurrence. */
  lemma {:induction false} RemoveCounts(lo: Bound, t: Tree, hi: Bound, key: int, x: int)
    requires Between(lo, t, hi) && Positive(t)
    ensures Remove(t, key).Some? <==> 0 < Occurrences(t, key)
    ensures Remove(t, key).Some? ==>
      Occurrences(Remove(t, key).value, x) == Occurrences(t, x) - (if x == key then 1 else 0)
    decreases NodeCount(t)
  {
    if t.Node? {
      OccurrencesNonNegative(t.left, key);
      OccurrencesNonNegative(t.right, key);
      if key < t.key {
        OutsideBounds(Some(t.key), t.right, hi, key);
        RemoveCounts(lo, t.left, Some(t.key), key, x);
      } else if key > t.key {
        OutsideBounds(lo, t.left, Some(t.key), key);
        RemoveCounts(Some(t.key), t.right, hi, key, x);
      } else if t.count > 1 || t.left.Leaf? || t.right.Leaf? {
      } else if t.left.priority < t.right.priority {
        var top := RotateRight(t);
        assert NodeCount(t.left) == 1 + NodeCount(t.left.left) + NodeCount(t.left.right);
        RotatedCounts(t, x);
        OccurrencesNonNegative(top.right.left, key);
        RemoveCounts(Some(top.key), top.right, hi, key, x);
      } else {
        var top := RotateLeft(t);
        assert NodeCount(t.right) == 1 + NodeCount(t.right.left) + NodeCount(t.right.right);
        RotatedCounts(t, x);
        OccurrencesNonNegative(top.left.right, key);
        RemoveCounts(lo, top.left, Some(top.key), key, x);
      }
    }
  }

  /** A rotation changes no occurrence count. */
  lemma RotatedCounts(t: Tree, x: int)
    requires t.Node?
    ensures t.left.Node? ==> Occurrences(RotateRight(t), x) == Occurrences(t, x)
    ensures t.right.Node? ==> Occurrences(RotateLeft(t), x) == Occurrences(t, x)
  {
    if t.left.Node? {
      var l := t.left;
      var own := if x == l.key then l.count else 0;
      assert Occurrences(l, x) == Occurrences(l.left, x) + own + Occurrences(l.right, x);
    }
    if t.right.Node? {
      var r := t.right;
      var own := if x == r.key then r.count else 0;
      assert Occurrences(r, x) == Occurrences(r.left, x) + own + Occurrences(r.right, x);
    }
  }

  // ---------------------------------------------------------------- order statistics

  ghost predicate Sorted(s: seq<int>) {
    forall i, j :: 0 <= i < j < |s| ==> s[i] <= s[j]
  }

  function Repeat(x: int, n: int): (s: seq<int>)
    ensures |s| == if n < 0 then 0 else n
    ensures forall i :: 0 <= i < n ==> s[i] == x
  {
    if n < 0 then [] else seq(n, _ => x)
  }

  ghost function Sum(s: seq<int>): int {
    if s == [] then 0 else s[0] + Sum(s[1..])
  }

  lemma {:induction false} SumConcat(a: seq<int>, b: seq<int>)
    ensures Sum(a + b) == Sum(a) + Sum(b)
  {
    if a == [] {
      assert a + b == b;
    } else {
      assert (a + b)[1..] == a[1..] + b;
      SumConcat(a[1..], b);
    }
  }

  lemma {:induction false} SumRepeat(x: int, n: nat)
    ensures Sum(Repeat(x, n)) == x * n
  {
    if n > 0 {
      assert Repeat(x, n)[1..] == Repeat(x, n - 1);
      SumRepeat(x, n - 1);
    }
  }

  lemma {:induction false} RepeatOccurrences(x: int, n: nat, y: int)
    ensures multiset(Repeat(x, n))[y] == if x == y then n else 0
  {
    if n > 0 {
      assert Repeat(x, n) == Repeat(x, n - 1) + [x];
      RepeatOccurrences(x, n - 1, y);
    }
  }

  /** In-order expansion: every key repeated by its multiplicity. */
  ghost function Expand(t: Tree): seq<int> {
    if t.Leaf? then [] else Expand(t.left) + Repeat(t.key, t.count) + Expand(t.right)
  }

  /** The stored sizes and totals are those of the expansion, whose counts are the occurrence counts. */
  lemma {:induction false} ExpansionExact(t: Tree, x: int)
    requires Augmented(t)
    ensures SizeOf(t) == |Expand(t)|
    ensures TotalOf(t) == Sum(Expand(t))
    ensures multiset(Expand(t))[x] == Occurrences(t, x)
  {
    if t.Node? {
      ExpansionExact(t.left, x);
      ExpansionExact(t.right, x);
      SumRepeat(t.key, t.count);
      RepeatOccurrences(t.key, t.count, x);
      SumConcat(Expand(t.left), Repeat(t.key, t.count));
      SumConcat(Expand(t.left) + Repeat(t.key, t.count), Expand(t.right));
    }
  }

  ghost predicate Within(lo: Bound, s: seq<int>, hi: Bound) {
    forall i :: 0 <= i < |s| ==> Over(lo, s[i]) && Under(s[i], hi)
  }

  /** The expansion of a search tree is sorted and stays within the bounds. */
  lemma {:induction false} ExpansionSorted(lo: Bound, t: Tree, hi: Bound)
    requires Between(lo, t, hi) && Augmented(t)
    ensures Sorted(Expand(t)) && Within(lo, Expand(t), hi)
    decreases t
  {
    if t.Node? {
      ExpansionSorted(lo, t.left, Some(t.key));
      ExpansionSorted(Some(t.key), t.right, hi);
      var a, b, c := Expand(t.left), Repeat(t.key, t.count), Expand(t.right);
      forall i | 0 <= i < |Expand(t)|
        ensures Over(lo, Expand(t)[i]) && Under(Expand(t)[i], hi)
      {
        assert Expand(t)[i] == if i < |a| then a[i] else if i < |a| + |b| then b[i - |a|] else c[i - |a| - |b|];
      }
      assert a + b + c == Expand(t);
    }
  }

  /** A sound treap expands to the sorted form of its multiset, and its root knows the size and the sum. */
  lemma {:induction false} SoundMeaning(t: Tree)
    requires Sound(t)
    ensures Sorted(Expand(t))
    ensures SizeOf(t) == |Expand(t)| && TotalOf(t) == Sum(Expand(t))
    ensures forall x :: multiset(Expand(t))[x] == Occurrences(t, x)
  {
    ExpansionSorted(None, t, None);
    forall x ensures multiset(Expand(t))[x] == Occurrences(t, x) { ExpansionExact(t, x); }
    ExpansionExact(t, 0);
  }

  /** Trees whose occurrence counts differ by one key stand for multisets that differ by that key. */
  lemma {:induction false} ContentsDiffer(less: Tree, more: Tree, key: int)
    requires Augmented(less) && Augmented(more)
    requires forall x :: Occurrences(more, x) == Occurrences(less, x) + (if x == key then 1 else 0)
    ensures multiset(Expand(more)) == multiset(Expand(less)) + multiset{key}
  {
    forall x ensures multiset(Expand(more))[x] == (multiset(Expand(less)) + multiset{key})[x] {
      ExpansionExact(less, x);
      ExpansionExact(more, x);
    }
  }

  /** Adding one value to any sound treap: it stays sound and stands for the multiset with one more occurrence. */
  lemma {:induction false} InsertRefines(t: Tree, key: int, priority: int)
    requires Sound(t)
    ensures Sound(Insert(t, key, priority))
    ensures multiset(Expand(Insert(t, key, priority))) == multiset(Expand(t)) + multiset{key}
  {
    InsertBetween(None, t, None, key, priority);
    InsertHeap(t, key, priority);
    InsertCounts(t, key, priority, 0);
    forall x ensures Occurrences(Insert(t, key, priority), x) == Occurrences(t, x) + (if x == key then 1 else 0) {
      InsertCounts(t, key, priority, x);
    }
    ContentsDiffer(t, Insert(t, key, priority), key);
  }

  /** Discarding fails exactly when the value is absent; otherwise the multiset loses one occurrence. */
  lemma {:induction false} RemoveRefines(t: Tree, key: int)
    requires Sound(t)
    ensures Remove(t, key).Some? <==> key in Expand(t)
    ensures Remove(t, key).Some? ==>
      && Sound(Remove(t, key).value)
      && multiset(Expand(Remove(t, key).value)) == multiset(Expand(t)) - multiset{key}
  {
    AugmentedPositive(t);
    RemoveCounts(None, t, None, key, 0);
    ExpansionExact(t, key);
    assert key in Expand(t) <==> key in multiset(Expand(t));
    if Remove(t, key).Some? {
      RemoveBetween(None, t, None, key);
      RemoveHeap(t, key, if t.Node? then t.priority else 0);
      RemoveAugmented(t, key);
      forall x ensures Occurrences(t, x) == Occurrences(Remove(t, key).value, x) + (if x == key then 1 else 0) {
        RemoveCounts(None, t, None, key, x);
      }
      ContentsDiffer(Remove(t, key).value, t, key);
    }
  }

  /** One call on the multiset: a discard of an absent value is an error that changes nothing. */
  datatype Call = Add(value: int) | Discard(value: int)

  function After(t: Tree, call: Call, priority: int -> int): Tree {
    match call
    case Add(value) => Insert(t, value, priority(value))
    case Discard(value) =>
      var r := Remove(t, value);
      if r.None? then t else r.value
  }

  function Run(calls: seq<Call>, priority: int -> int): Tree {
    if calls == [] then Leaf
    else After(Run(calls[..|calls| - 1], priority), calls[|calls| - 1], priority)
  }

  /** The multiset the same calls describe. */
  function Bag(calls: seq<Call>): multiset<int> {
    if calls == [] then multiset{}
    else
      var before := Bag(calls[..|calls| - 1]);
      match calls[|calls| - 1]
      case Add(value) => before + multiset{value}
      case Discard(value) => before - multiset{value}
  }

  lemma {:induction false} AfterRefines(t: Tree, call: Call, priority: int -> int)
    requires Sound(t)
    ensures Sound(After(t, call, priority))
    ensures multiset(Expand(After(t, call, priority))) ==
      if call.Add? then multiset(Expand(t)) + multiset{call.value} else multiset(Expand(t)) - multiset{call.value}
  {
    match call
    case Add(value) => InsertRefines(t, value, priority(value));
    case Discard(value) =>
      RemoveRefines(t, value);
      assert value in Expand(t) <==> value in multiset(Expand(t));
  }

  /** For every sequence of calls and every priority hash the treap is sound and stands for the described multiset. */
  lemma {:induction false} RunRefines(calls: seq<Call>, priority: int -> int)
    ensures Sound(Run(calls, priority))
    ensures multiset(Expand(Run(calls, priority))) == Bag(calls)
    ensures Sorted(Expand(Run(calls, priority)))
  {
    if calls != [] {
      RunRefines(calls[..|calls| - 1], priority);
      AfterRefines(Run(calls[..|calls| - 1], priority), calls[|calls| - 1], priority);
    }
    ExpansionSorted(None, Run(calls, priority), None);
  }

  /** Descent by subtree sizes. */
  function Pick(t: Tree, k: int): int {
    if t.Leaf? then 0
    else if k < SizeOf(t.left) then Pick(t.left, k)
    else if k < SizeOf(t.left) + t.count then t.key
    else Pick(t.right, k - SizeOf(t.left) - t.count)
  }

  /** Selection by sizes is indexing into the sorted observations. */
  lemma {:induction false} PickIsKth(t: Tree, k: int)
    requires Augmented(t) && 0 <= k < SizeOf(t)
    ensures k < |Expand(t)| && Pick(t, k) == Expand(t)[k]
  {
    ExpansionExact(t, 0);
    ExpansionExact(t.left, 0);
    ExpansionExact(t.right, 0);
    if k < SizeOf(t.left) {
      PickIsKth(t.left, k);
    } else if k >= SizeOf(t.left) + t.count {
      PickIsKth(t.right, k - SizeOf(t.left) - t.count);
    }
  }

  /** `ceil(percentile / 100 * size) - 1`, but never negative, with the ceiling taken exactly. */
  function PercentileOrdinal(percentile: nat, size: nat): nat {
    var ordinal := (percentile * size + 99) / 100 - 1;
    if ordinal < 0 then 0 else ordinal
  }

  /** How many entries of a sorted sequence satisfy a bound, counted from the front. */
  ghost function CountAtMost(s: seq<int>, v: int): nat {
    if s == [] then 0 else (if s[0] <= v then 1 else 0) + CountAtMost(s[1..], v)
  }

  ghost function CountBelow(s: seq<int>, v: int): nat {
    if s == [] then 0 else (if s[0] < v then 1 else 0) + CountBelow(s[1..], v)
  }

  lemma {:induction false} RankBounds(s: seq<int>, k: nat)
    requires Sorted(s) && k < |s|
    ensures k < CountAtMost(s, s[k])
    ensures CountBelow(s, s[k]) <= k
  {
    if k > 0 {
      assert s[1..][k - 1] == s[k];
      RankBounds(s[1..], k - 1);
    } else {
      NoneBelow(s, s[0]);
    }
  }

  lemma {:induction false} NoneBelow(s: seq<int>, v: int)
    requires forall i :: 0 <= i < |s| ==> v <= s[i]
    ensures CountBelow(s, v) == 0
  {
    if s != [] {
      NoneBelow(s[1..], v);
    }
  }

  /** At least p% of the observations are at or below `v`, fewer than p% strictly below it. */
  ghost predicate IsPercentile(s: seq<int>, percentile: nat, v: int) {
    && v in s
    && percentile * |s| <= 100 * CountAtMost(s, v)
    && 100 * CountBelow(s, v) < percentile * |s|
  }

  /** The selected ordinal is the nearest rank. */
  lemma NearestRank(s: seq<int>, percentile: nat)
    requires Sorted(s) && s != [] && 1 <= percentile <= 100
    ensures PercentileOrdinal(percentile, |s|) < |s|
    ensures IsPercentile(s, percentile, s[PercentileOrdinal(percentile, |s|)])
  {
    var n, k := percentile * |s|, PercentileOrdinal(percentile, |s|);
    assert 1 <= n <= 100 * |s| by {
      MulMono(1, percentile, |s|);
      MulMono(percentile, 100, |s|);
    }
    assert n <= 100 * (k + 1) && 100 * k < n;
    RankBounds(s, k);
  }

  /** Only one value of a sequence can be its p-th percentile. */
  lemma PercentileUnique(s: seq<int>, percentile: nat, v: int, w: int)
    requires IsPercentile(s, percentile, v) && IsPercentile(s, percentile, w)
    ensures v == w
  {
    if v < w {
      AtMostBelow(s, v, w);
    } else if w < v {
      AtMostBelow(s, w, v);
    }
  }

  lemma {:induction false} AtMostBelow(s: seq<int>, v: int, w: int)
    requires v < w
    ensures CountAtMost(s, v) <= CountBelow(s, w)
  {
    if s != [] {
      AtMostBelow(s[1..], v, w);
    }
  }

  lemma MulMono(a: nat, b: nat, c: nat)
    requires a <= b
    ensures a * c <= b * c
  {
  }
}
