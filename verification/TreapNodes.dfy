/** The mutable treap: nodes rotated in place, proved to follow the value-level trees of `Treap`. */
module TreapNodes {
  import opened Wrappers
  import opened Treap

  ghost function ShapeOf(n: OrderNode?): Tree
    reads n
  {
    if n == null then Leaf else n.shape
  }

  ghost function ReprOf(n: OrderNode?): set<OrderNode>
    reads n
  {
    if n == null then {} else n.repr
  }

  class OrderNode {
    var key: int
    var priority: int
    var count: int
    var size: int
    var total: int
    var left: OrderNode?
    var right: OrderNode?
    /** The nodes of this subtree and the tree they spell. */
    ghost var repr: set<OrderNode>
    ghost var shape: Tree

    /** The children are well-formed subtrees that share no node with each other or with this one. */
    ghost predicate Assembled()
      reads this, left, right, ReprOf(left), ReprOf(right)
    {
      && this !in ReprOf(left) && this !in ReprOf(right)
      && ReprOf(left) !! ReprOf(right)
      && (left != null ==> left.Valid())
      && (right != null ==> right.Valid())
    }

    ghost predicate Valid()
      reads this, repr
      decreases repr
    {
      && this in repr
      && (left != null ==> left in repr && left.repr <= repr && this !in left.repr && left.Valid())
      && (right != null ==> right in repr && right.repr <= repr && this !in right.repr && right.Valid())
      && ReprOf(left) !! ReprOf(right)
      && shape == Node(ShapeOf(left), key, priority, count, size, total, ShapeOf(right))
    }

    constructor (key: int, priority: int)
      ensures Valid() && repr == {this}
      ensures shape == Node(Leaf, key, priority, 1, 1, key, Leaf)
    {
      this.key, this.priority, this.count := key, priority, 1;
      this.size, this.total := 1, key;
      this.left, this.right := null, null;
      repr := {this};
      shape := Node(Leaf, key, priority, 1, 1, key, Leaf);
    }

    method Refresh()
      requires Assembled()
      modifies this`size, this`total, this`shape, this`repr
      ensures Valid()
      ensures repr == {this} + ReprOf(left) + ReprOf(right)
      ensures shape == Refreshed(ShapeOf(left), key, priority, count, ShapeOf(right))
    {
      var newSize, newTotal := count, key * count;
      if left != null {
        newSize, newTotal := newSize + left.size, newTotal + left.total;
      }
      if right != null {
        newSize, newTotal := newSize + right.size, newTotal + right.total;
      }
      size, total := newSize, newTotal;
      repr := {this} + ReprOf(left) + ReprOf(right);
      shape := Node(ShapeOf(left), key, priority, count, size, total, ShapeOf(right));
    }
  }

  /** The node takes over the right subtree of its left child. */
  method TakeFromLeft(node: OrderNode)
    requires node.Assembled() && node.left != null
    modifies node
    ensures node.Valid() && old(node.left).right == old(node.left.right)
    ensures node.repr == {node} + old(ReprOf(node.left.right)) + old(ReprOf(node.right))
    ensures node.shape ==
      old(Refreshed(ShapeOf(node.left.right), node.key, node.priority, node.count, ShapeOf(node.right)))
  {
    node.left := node.left.right;
    node.Refresh();
  }

  /** The node takes over the left subtree of its right child. */
  method TakeFromRight(node: OrderNode)
    requires node.Assembled() && node.right != null
    modifies node
    ensures node.Valid() && old(node.right).left == old(node.right.left)
    ensures node.repr == {node} + old(ReprOf(node.left)) + old(ReprOf(node.right.left))
    ensures node.shape ==
      old(Refreshed(ShapeOf(node.left), node.key, node.priority, node.count, ShapeOf(node.right.left)))
  {
    node.right := node.right.left;
    node.Refresh();
  }

  method RotateNodesRight(node: OrderNode) returns (r: OrderNode)
    requires node.Assembled() && node.left != null
    modifies node, node.left
    ensures r.Valid()
    ensures r == old(node.left) && r.right == node && r.left == old(node.left.left)
    ensures r.repr <= {node} + old(ReprOf(node.left)) + old(ReprOf(node.right))
    ensures r.shape ==
      old(RotateRight(Refreshed(ShapeOf(node.left), node.key, node.priority, node.count, ShapeOf(node.right))))
  {
    r := node.left;
    TakeFromLeft(node);
    r.right := node;
    r.Refresh();
  }

  method RotateNodesLeft(node: OrderNode) returns (r: OrderNode)
    requires node.Assembled() && node.right != null
    modifies node, node.right
    ensures r.Valid()
    ensures r == old(node.right) && r.left == node && r.right == old(node.right.right)
    ensures r.repr <= {node} + old(ReprOf(node.left)) + old(ReprOf(node.right))
    ensures r.shape ==
      old(RotateLeft(Refreshed(ShapeOf(node.left), node.key, node.priority, node.count, ShapeOf(node.right))))
  {
    r := node.right;
    TakeFromRight(node);
    r.left := node;
    r.Refresh();
  }

  /** The tail of an insertion on the left: rotate when the child outranks the node, then refresh. */
  method SettleLeft(node: OrderNode) returns (r: OrderNode)
    requires node.Assembled() && node.left != null
    modifies node, node.left
    ensures r.Valid() && r.repr <= {node} + old(ReprOf(node.left)) + old(ReprOf(node.right))
    ensures r.shape == old(
      var grown := Refreshed(ShapeOf(node.left), node.key, node.priority, node.count, ShapeOf(node.right));
      if node.left.priority < node.priority then RotateRight(grown) else grown)
  {
    r := node;
    if node.left.priority < node.priority {
      r := RotateNodesRight(node);
    } else {
      r.Refresh();
    }
  }

  method SettleRight(node: OrderNode) returns (r: OrderNode)
    requires node.Assembled() && node.right != null
    modifies node, node.right
    ensures r.Valid() && r.repr <= {node} + old(ReprOf(node.left)) + old(ReprOf(node.right))
    ensures r.shape == old(
      var grown := Refreshed(ShapeOf(node.left), node.key, node.priority, node.count, ShapeOf(node.right));
      if node.right.priority < node.priority then RotateLeft(grown) else grown)
  {
    r := node;
    if node.right.priority < node.priority {
      r := RotateNodesLeft(node);
    } else {
      r.Refresh();
    }
  }

  method InsertNode(node: OrderNode?, key: int, priority: int) returns (r: OrderNode)
    requires node != null ==> node.Valid()
    modifies ReprOf(node)
    ensures r.Valid() && fresh(r.repr - old(ReprOf(node)))
    ensures r.shape == Insert(old(ShapeOf(node)), key, priority)
    decreases ReprOf(node), 1
  {
    if node == null {
      r := new OrderNode(key, priority);
    } else if key == node.key {
      node.count := node.count + 1;
      node.Refresh();
      r := node;
    } else if key < node.key {
      r := InsertLeft(node, key, priority);
    } else {
      r := InsertRight(node, key, priority);
    }
  }

  method InsertLeft(node: OrderNode, key: int, priority: int) returns (r: OrderNode)
    requires node.Valid() && key < node.key
    modifies node.repr
    ensures r.Valid() && fresh(r.repr - old(node.repr))
    ensures r.shape == Insert(old(node.shape), key, priority)
    decreases node.repr, 0
  {
    var child := InsertNode(node.left, key, priority);
    node.left := child;
    r := SettleLeft(node);
  }

  method InsertRight(node: OrderNode, key: int, priority: int) returns (r: OrderNode)
    requires node.Valid() && key > node.key
    modifies node.repr
    ensures r.Valid() && fresh(r.repr - old(node.repr))
    ensures r.shape == Insert(old(node.shape), key, priority)
    decreases node.repr, 0
  {
    var child := InsertNode(node.right, key, priority);
    node.right := child;
    r := SettleRight(node);
  }

  lemma {:induction false} RemoveRootSucceeds(t: Tree)
    requires t.Node?
    ensures Remove(t, t.key).Some?
    decreases NodeCount(t)
  {
    if t.count <= 1 && t.left.Node? && t.right.Node? {
      assert NodeCount(t.left) == 1 + NodeCount(t.left.left) + NodeCount(t.left.right);
      assert NodeCount(t.right) == 1 + NodeCount(t.right.left) + NodeCount(t.right.right);
      if t.left.priority < t.right.priority {
        RemoveRootSucceeds(RotateRight(t).right);
      } else {
        RemoveRootSucceeds(RotateLeft(t).left);
      }
    }
  }

  /** `ok` is false where the source raises; nothing was changed then. */
  method RemoveNode(node: OrderNode?, key: int) returns (ok: bool, r: OrderNode?)
    requires node != null ==> node.Valid()
    modifies ReprOf(node)
    ensures ok == Remove(old(ShapeOf(node)), key).Some?
    ensures r != null ==> r.Valid()
    ensures ReprOf(r) <= old(ReprOf(node))
    ensures ok ==> ShapeOf(r) == Remove(old(ShapeOf(node)), key).value
    ensures !ok ==> r == node && ShapeOf(r) == old(ShapeOf(node))
    decreases ReprOf(node), 3
  {
    if node == null {
      return false, node;
    } else if key < node.key {
      ok, r := RemoveLeft(node, key);
    } else if key > node.key {
      ok, r := RemoveRight(node, key);
    } else if node.count > 1 {
      node.count := node.count - 1;
      node.Refresh();
      return true, node;
    } else if node.left == null {
      return true, node.right;
    } else if node.right == null {
      return true, node.left;
    } else if node.left.priority < node.right.priority {
      r := SinkRight(node);
      ok := true;
    } else {
      r := SinkLeft(node);
      ok := true;
    }
  }

  method RemoveLeft(node: OrderNode, key: int) returns (ok: bool, r: OrderNode?)
    requires node.Valid() && key < node.key
    modifies node.repr
    ensures ok == Remove(old(node.shape), key).Some?
    ensures r != null && r.Valid() && r.repr <= old(node.repr)
    ensures ok ==> r.shape == Remove(old(node.shape), key).value
    ensures !ok ==> r == node && r.shape == old(node.shape)
    decreases node.repr, 0
  {
    var child;
    ok, child := RemoveNode(node.left, key);
    r := node;
    if ok {
      node.left := child;
      node.Refresh();
    }
  }

  method RemoveRight(node: OrderNode, key: int) returns (ok: bool, r: OrderNode?)
    requires node.Valid() && key > node.key
    modifies node.repr
    ensures ok == Remove(old(node.shape), key).Some?
    ensures r != null && r.Valid() && r.repr <= old(node.repr)
    ensures ok ==> r.shape == Remove(old(node.shape), key).value
    ensures !ok ==> r == node && r.shape == old(node.shape)
    decreases node.repr, 0
  {
    var child;
    ok, child := RemoveNode(node.right, key);
    r := node;
    if ok {
      node.right := child;
      node.Refresh();
    }
  }

  /** Rotate the doomed node below its left child and remove it there. */
  method SinkRight(node: OrderNode) returns (r: OrderNode)
    requires node.Valid() && node.count <= 1
    requires node.left != null && node.right != null && node.left.priority < node.right.priority
    modifies node.repr
    ensures r.Valid() && r.repr <= old(node.repr)
    ensures Remove(old(node.shape), old(node.key)) == Some(r.shape)
    decreases node.repr, 2
  {
    ghost var before := node.shape;
    RemoveRootSucceeds(before);
    var key := node.key;
    r := RotateNodesRight(node);
    PruneRight(r, key);
  }

  method SinkLeft(node: OrderNode) returns (r: OrderNode)
    requires node.Valid() && node.count <= 1
    requires node.left != null && node.right != null && node.right.priority <= node.left.priority
    modifies node.repr
    ensures r.Valid() && r.repr <= old(node.repr)
    ensures Remove(old(node.shape), old(node.key)) == Some(r.shape)
    decreases node.repr, 2
  {
    ghost var before := node.shape;
    RemoveRootSucceeds(before);
    var key := node.key;
    r := RotateNodesLeft(node);
    PruneLeft(r, key);
  }

  /** Remove a key known to be in the right subtree. */
  method PruneRight(top: OrderNode, key: int)
    requires top.Valid() && Remove(top.shape.right, key).Some?
    modifies top.repr
    ensures top.Valid() && top.repr <= old(top.repr)
    ensures top.shape == old(
      Refreshed(top.shape.left, top.shape.key, top.shape.priority, top.shape.count, Remove(top.shape.right, key).value))
    decreases top.repr, 0
  {
    var ok, child := RemoveNode(top.right, key);
    top.right := child;
    top.Refresh();
  }

  method PruneLeft(top: OrderNode, key: int)
    requires top.Valid() && Remove(top.shape.left, key).Some?
    modifies top.repr
    ensures top.Valid() && top.repr <= old(top.repr)
    ensures top.shape == old(
      Refreshed(Remove(top.shape.left, key).value, top.shape.key, top.shape.priority, top.shape.count, top.shape.right))
    decreases top.repr, 0
  {
    var ok, child := RemoveNode(top.left, key);
    top.left := child;
    top.Refresh();
  }

  // ---------------------------------------------------------------- the multiset

  /** The published summary; medians and percentiles are absent for an empty distribution. */
  datatype Distribution = Distribution(
    count: int, total: int, median: Option<real>,
    p75: Option<int>, p90: Option<int>, p95: Option<int>, maximum: Option<int>)

  ghost function Middle(s: seq<int>): real
    requires s != []
  {
    var middle := |s| / 2;
    if |s| % 2 == 1 then s[middle] as real else (s[middle - 1] + s[middle]) as real / 2.0
  }

  /** What a summary must say about the sorted observations. */
  ghost predicate Summarizes(d: Distribution, s: seq<int>) {
    && d.count == |s| && d.total == Sum(s)
    && if s == [] then
         d.median == None && d.p75 == None && d.p90 == None && d.p95 == None && d.maximum == None
       else
         && d.median == Some(Middle(s))
         && d.p75.Some? && IsPercentile(s, 75, d.p75.value)
         && d.p90.Some? && IsPercentile(s, 90, d.p90.value)
         && d.p95.Some? && IsPercentile(s, 95, d.p95.value)
         && d.maximum.Some? && d.maximum.value in s && forall x :: x in s ==> x <= d.maximum.value
  }

  /** The descent by subtree sizes returns the k-th observation and never needs a missing child. */
  method Select(node: OrderNode, ordinal: nat) returns (key: int)
    requires node.Valid() && Augmented(node.shape) && ordinal < node.size
    ensures ordinal < |Expand(node.shape)| && key == Expand(node.shape)[ordinal]
  {
    PickIsKth(node.shape, ordinal);
    var current: OrderNode := node;
    var remaining: int := ordinal;
    while true
      invariant current.Valid() && Augmented(current.shape)
      invariant 0 <= remaining < current.size
      invariant Pick(current.shape, remaining) == Pick(node.shape, ordinal)
      decreases current.repr
    {
      var leftSize := if current.left == null then 0 else current.left.size;
      if remaining < leftSize {
        current := current.left;
      } else if remaining < leftSize + current.count {
        return current.key;
      } else {
        remaining := remaining - (leftSize + current.count);
        current := current.right;
      }
    }
  }

  method Percentile(node: OrderNode, percentile: nat) returns (key: int)
    requires node.Valid() && Sound(node.shape) && 1 <= percentile <= 100
    ensures IsPercentile(Expand(node.shape), percentile, key)
  {
    SoundMeaning(node.shape);
    NearestRank(Expand(node.shape), percentile);
    key := Select(node, PercentileOrdinal(percentile, node.size));
  }

  class OrderStatisticMultiset {
    var root: OrderNode?
    const priorityOf: int -> int

    /** The objects that an update may write, and the observations the tree holds. */
    ghost var repr: set<object>
    ghost var contents: multiset<int>

    ghost predicate Valid()
      reads this, repr
    {
      && this in repr
      && (root != null ==> root in repr && root.repr <= repr && root.Valid())
      && Sound(ShapeOf(root)) && contents == multiset(Expand(ShapeOf(root)))
    }

    /** The observations in order. */
    ghost function Values(): seq<int>
      reads this, root
    {
      Expand(ShapeOf(root))
    }

    constructor (priorityOf: int -> int, values: seq<int>)
      ensures Valid() && fresh(repr) && contents == multiset(values)
    {
      root := null;
      this.priorityOf := priorityOf;
      repr, contents := {this}, multiset{};
      new;
      assert Valid();
      hide Sound, Expand;
      AddAll(values);
    }

    method AddAll(values: seq<int>)
      requires Valid()
      modifies repr
      ensures Valid() && fresh(repr - old(repr)) && contents == old(contents) + multiset(values)
    {
      hide Sound, Expand;
      for i := 0 to |values|
        invariant Valid() && fresh(repr - old(repr)) && contents == old(contents) + multiset(values[..i])
      {
        assert values[..i + 1] == values[..i] + [values[i]];
        Add(values[i]);
      }
      assert values[..|values|] == values;
    }

    method Add(value: int)
      requires Valid()
      modifies repr
      ensures Valid() && fresh(repr - old(repr)) && contents == old(contents) + multiset{value}
    {
      hide Sound, Expand;
      InsertRefines(ShapeOf(root), value, priorityOf(value));
      var r := InsertNode(root, value, priorityOf(value));
      root, repr, contents := r, repr + r.repr, contents + multiset{value};
    }

    /** `ok` is false exactly when the value is absent; the tree is untouched then. */
    method Discard(value: int) returns (ok: bool)
      requires Valid()
      modifies repr
      ensures Valid() && repr == old(repr)
      ensures ok == (value in old(contents))
      ensures contents == if ok then old(contents) - multiset{value} else old(contents)
      ensures !ok ==> root == old(root) && ShapeOf(root) == old(ShapeOf(root))
    {
      hide Expand, Sound, Remove;
      RemoveRefines(ShapeOf(root), value);
      var r;
      ok, r := RemoveNode(root, value);
      root := r;
      if ok {
        contents := contents - multiset{value};
      }
    }

    method Summary() returns (d: Distribution)
      requires Valid()
      ensures Summarizes(d, Values())
    {
      SoundMeaning(ShapeOf(root));
      if root == null {
        return Distribution(0, 0, None, None, None, None, None);
      }
      var median := Median(root);
      var p75 := Percentile(root, 75);
      var p90 := Percentile(root, 90);
      var p95 := Percentile(root, 95);
      var maximum := Select(root, root.size - 1);
      LastIsMaximum(Values());
      d := Distribution(root.size, root.total, Some(median), Some(p75), Some(p90), Some(p95), Some(maximum));
    }
  }

  method Median(node: OrderNode) returns (median: real)
    requires node.Valid() && Sound(node.shape)
    ensures Expand(node.shape) != [] && median == Middle(Expand(node.shape))
  {
    ExpansionExact(node.shape, 0);
    var middle := node.size / 2;
    var upper := Select(node, middle);
    if node.size % 2 == 1 {
      median := upper as real;
    } else {
      var lower := Select(node, middle - 1);
      median := (lower + upper) as real / 2.0;
    }
  }

  lemma LastIsMaximum(s: seq<int>)
    requires Sorted(s) && s != []
    ensures s[|s| - 1] in s && forall x :: x in s ==> x <= s[|s| - 1]
  {
    forall x | x in s ensures x <= s[|s| - 1] {
      var i :| 0 <= i < |s| && s[i] == x;
    }
  }
}
