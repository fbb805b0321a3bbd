/**
 Parent closure of discovered rollouts: which candidates are linked to a verified source, and the
 ancestor walk that follows. Passes visit candidates in any order.
 */
module Closure {
  import opened Wrappers
  import opened Finite

  type Id = string

  datatype Rollout = Rollout(parent: Option<Id>, depth: int)

  datatype Error = LostParent(thread: Id) | DepthDisagrees(thread: Id) | LostAncestor(thread: Id)

  /** A candidate without a parent that is the expected root of the session. */
  predicate Anchored(candidates: map<Id, Rollout>, expected: Option<Id>, t: Id) {
    t in candidates && candidates[t].parent.None? && expected == Some(t)
  }

  /** Where a session root is expected, any other candidate without a parent is an error. */
  predicate Orphan(candidates: map<Id, Rollout>, expected: Option<Id>, t: Id) {
    t in candidates && candidates[t].parent.None? && expected.Some? && expected != Some(t)
  }

  /** A chain of at most `n` further candidates leads from `t` to a verified source or the root. */
  predicate LinkedWithin(base: map<Id, Rollout>, candidates: map<Id, Rollout>, expected: Option<Id>, t: Id, n: nat)
    decreases n
  {
    && t in candidates
    && (|| Anchored(candidates, expected, t)
        || (candidates[t].parent.Some?
            && (candidates[t].parent.value in base
                || (n > 0 && LinkedWithin(base, candidates, expected, candidates[t].parent.value, n - 1)))))
  }

  ghost predicate Linked(base: map<Id, Rollout>, candidates: map<Id, Rollout>, expected: Option<Id>, t: Id) {
    exists n: nat :: LinkedWithin(base, candidates, expected, t, n)
  }

  /** A linked candidate whose depth is not its parent's plus one. */
  ghost predicate WrongDepth(base: map<Id, Rollout>, candidates: map<Id, Rollout>, expected: Option<Id>, t: Id) {
    && Linked(base, candidates, expected, t) && candidates[t].parent.Some?
    && var p := candidates[t].parent.value;
       var all := candidates + base;
       p in all && candidates[t].depth != all[p].depth + 1
  }

  lemma LinkedChild(base: map<Id, Rollout>, candidates: map<Id, Rollout>, expected: Option<Id>, t: Id)
    requires t in candidates && candidates[t].parent.Some?
    requires candidates[t].parent.value in base || Linked(base, candidates, expected, candidates[t].parent.value)
    ensures Linked(base, candidates, expected, t)
  {
    var p := candidates[t].parent.value;
    if p in base {
      assert LinkedWithin(base, candidates, expected, t, 0);
    } else {
      var n: nat :| LinkedWithin(base, candidates, expected, p, n);
      assert LinkedWithin(base, candidates, expected, t, n + 1);
    }
  }

  /** Nothing more can be added: no waiting candidate is anchored or has its parent in the closure. */
  predicate Exhausted(base: map<Id, Rollout>, candidates: map<Id, Rollout>, expected: Option<Id>, pending: set<Id>) {
    forall t :: t in pending && t in candidates ==>
      && !Anchored(candidates, expected, t)
      && (candidates[t].parent.Some? ==>
            candidates[t].parent.value !in base
            && (candidates[t].parent.value in candidates ==> candidates[t].parent.value in pending))
  }

  /** What waits when nothing more can be added is not linked. */
  lemma {:induction false} ExhaustedUnlinked(
    base: map<Id, Rollout>, candidates: map<Id, Rollout>, expected: Option<Id>, pending: set<Id>, t: Id, n: nat
  )
    requires Exhausted(base, candidates, expected, pending) && t in pending
    ensures !LinkedWithin(base, candidates, expected, t, n)
    decreases n
  {
    if t in candidates && candidates[t].parent.Some? && n > 0 {
      var p := candidates[t].parent.value;
      if p in candidates {
        ExhaustedUnlinked(base, candidates, expected, pending, p, n - 1);
      }
    }
  }

  function Restrict(m: map<Id, Rollout>, keys: set<Id>): map<Id, Rollout> {
    map t | t in m && t in keys :: m[t]
  }

  /** The candidates added so far are linked and have the right depth. */
  ghost predicate Sound(base: map<Id, Rollout>, candidates: map<Id, Rollout>, expected: Option<Id>, added: set<Id>) {
    forall t :: t in added ==>
      && Linked(base, candidates, expected, t) && !WrongDepth(base, candidates, expected, t)
      && !Orphan(candidates, expected, t)
  }

  /** What one visit finds. */
  datatype Visit = Waits | Adds | Fails(error: Error)

  function VisitOf(
    base: map<Id, Rollout>, candidates: map<Id, Rollout>, expected: Option<Id>, added: set<Id>, t: Id
  ): Visit
    requires t in candidates && added <= candidates.Keys
  {
    if candidates[t].parent.None? then
      if expected.None? then Waits else if expected == Some(t) then Adds else Fails(LostParent(t))
    else
      var p := candidates[t].parent.value;
      if p !in base && p !in added then Waits
      else
        var parent := if p in base then base[p] else candidates[p];
        if candidates[t].depth != parent.depth + 1 then Fails(DepthDisagrees(t))
        else Adds
  }

  lemma VisitSound(
    base: map<Id, Rollout>, candidates: map<Id, Rollout>, expected: Option<Id>, added: set<Id>, t: Id
  )
    requires t in candidates && added <= candidates.Keys && base.Keys !! candidates.Keys
    requires Sound(base, candidates, expected, added)
    ensures var v := VisitOf(base, candidates, expected, added, t);
            && (v.Adds? ==> Sound(base, candidates, expected, added + {t}))
            && (v.Fails? ==> Explains(base, candidates, expected, v.error))
  {
    hide LinkedWithin;
    var c := candidates[t];
    if c.parent.Some? {
      var p := c.parent.value;
      if p in base || p in added {
        LinkedChild(base, candidates, expected, t);
      }
    } else if expected == Some(t) {
      AnchoredLinked(base, candidates, expected, t);
    }
  }

  lemma AnchoredLinked(base: map<Id, Rollout>, candidates: map<Id, Rollout>, expected: Option<Id>, t: Id)
    requires Anchored(candidates, expected, t)
    ensures Linked(base, candidates, expected, t)
  {
    assert LinkedWithin(base, candidates, expected, t, 0);
  }

  /** The reported error names a candidate that has it. */
  ghost predicate Explains(base: map<Id, Rollout>, candidates: map<Id, Rollout>, expected: Option<Id>, e: Error) {
    match e
    case LostParent(t) => Orphan(candidates, expected, t)
    case DepthDisagrees(t) => WrongDepth(base, candidates, expected, t)
    case LostAncestor(_) => false
  }

  /** One pass over the waiting candidates, in any order. */
  method Pass(base: map<Id, Rollout>, candidates: map<Id, Rollout>, expected: Option<Id>, start: set<Id>)
    returns (added: set<Id>, error: Option<Error>)
    requires base.Keys !! candidates.Keys && start <= candidates.Keys && Sound(base, candidates, expected, start)
    ensures start <= added <= candidates.Keys
    ensures error.Some? ==> Explains(base, candidates, expected, error.value)
    ensures error.None? ==> Sound(base, candidates, expected, added)
    ensures error.None? && added == start ==>
      forall t :: t in candidates && t !in start ==> VisitOf(base, candidates, expected, start, t) == Waits
  {
    hide Sound, VisitOf, Explains;
    added, error := start, None;
    var rest := candidates.Keys - start;
    while rest != {}
      invariant start <= added <= candidates.Keys && rest <= candidates.Keys && rest !! added
      invariant Sound(base, candidates, expected, added)
      invariant added == start ==>
        forall t :: t in candidates && t !in start && t !in rest ==>
          VisitOf(base, candidates, expected, start, t) == Waits
      decreases rest
    {
      var t :| t in rest;
      var v := VisitOf(base, candidates, expected, added, t);
      VisitSound(base, candidates, expected, added, t);
      if v.Fails? {
        error := Some(v.error);
        return;
      }
      rest := rest - {t};
      if v.Adds? {
        added := added + {t};
      }
    }
  }

  /**
   The closure loops. With an expected root, as in the exact read of a batch, a candidate without a
   parent is either that root or an error; without one, as in discovery, it just stays out.
   */
  method Close(base: map<Id, Rollout>, candidates: map<Id, Rollout>, expected: Option<Id>)
    returns (r: Result<map<Id, Rollout>, Error>)
    requires base.Keys !! candidates.Keys
    ensures r.Success? ==>
      forall t :: t in r.value <==> t in base || Linked(base, candidates, expected, t)
    ensures r.Success? ==> forall t :: t in r.value ==> t in candidates + base && r.value[t] == (candidates + base)[t]
    ensures r.Failure? ==> Explains(base, candidates, expected, r.error)
    ensures r.Success? <==> forall t :: !WrongDepth(base, candidates, expected, t) && !Orphan(candidates, expected, t)
  {
    hide WrongDepth, VisitOf, Linked, Orphan, Restrict;
    var added: set<Id> := {};
    while true
      invariant added <= candidates.Keys && Sound(base, candidates, expected, added)
      decreases |candidates.Keys - added|
    {
      var more, error := Pass(base, candidates, expected, added);
      if error.Some? {
        ExplainedFails(base, candidates, expected, error.value);
        return Failure(error.value);
      }
      if more == added {
        Finished(base, candidates, expected, added);
        break;
      }
      Progress(candidates.Keys, added, more);
      added := more;
    }
    CombinedIs(base, candidates, added);
    return Success(base + Restrict(candidates, added));
  }

  lemma CombinedIs(base: map<Id, Rollout>, candidates: map<Id, Rollout>, added: set<Id>)
    requires base.Keys !! candidates.Keys && added <= candidates.Keys
    ensures var r := base + Restrict(candidates, added);
            && (forall t :: t in r <==> t in base || t in added)
            && (forall t :: t in r ==> t in candidates + base && r[t] == (candidates + base)[t])
  {}

  lemma Progress(all: set<Id>, added: set<Id>, more: set<Id>)
    requires added <= more <= all && more != added
    ensures |all - more| < |all - added|
  {
    assert more - added != {};
    var x :| x in more - added;
    SubsetSize(all - more, all - added - {x});
  }

  lemma ExplainedFails(base: map<Id, Rollout>, candidates: map<Id, Rollout>, expected: Option<Id>, e: Error)
    requires Explains(base, candidates, expected, e)
    ensures exists t :: WrongDepth(base, candidates, expected, t) || Orphan(candidates, expected, t)
  {}

  /** A pass that added nothing has found everything linked. */
  lemma {:induction false} Finished(
    base: map<Id, Rollout>, candidates: map<Id, Rollout>, expected: Option<Id>, added: set<Id>
  )
    requires base.Keys !! candidates.Keys && added <= candidates.Keys && Sound(base, candidates, expected, added)
    requires forall t :: t in candidates && t !in added ==> VisitOf(base, candidates, expected, added, t) == Waits
    ensures forall t :: t in added <==> Linked(base, candidates, expected, t)
    ensures forall t :: !WrongDepth(base, candidates, expected, t) && !Orphan(candidates, expected, t)
  {
    hide LinkedWithin;
    var pending := candidates.Keys - added;
    assert Exhausted(base, candidates, expected, pending);
    forall t ensures t in added <==> Linked(base, candidates, expected, t) {
      if Linked(base, candidates, expected, t) {
        var n: nat :| LinkedWithin(base, candidates, expected, t, n);
        LinkedIsCandidate(base, candidates, expected, t, n);
        if t in pending {
          ExhaustedUnlinked(base, candidates, expected, pending, t, n);
        }
      }
    }
  }

  lemma LinkedIsCandidate(base: map<Id, Rollout>, candidates: map<Id, Rollout>, expected: Option<Id>, t: Id, n: nat)
    requires LinkedWithin(base, candidates, expected, t, n)
    ensures t in candidates
  {}

  // ---------------------------------------------------------------- the ancestor walk

  /** Every parent that is present is exactly one level up. */
  predicate Descends(closure: map<Id, Rollout>) {
    forall t :: t in closure && closure[t].parent.Some? && closure[t].parent.value in closure ==>
      closure[t].depth == closure[closure[t].parent.value].depth + 1
  }

  /** Every parent is present. */
  predicate Rooted(closure: map<Id, Rollout>) {
    forall t :: t in closure && closure[t].parent.Some? ==> closure[t].parent.value in closure
  }

  /** The ancestor `n` levels up, while there is one. */
  function Up(closure: map<Id, Rollout>, t: Option<Id>, n: nat): Option<Id>
    decreases n
  {
    if n == 0 || t.None? then t
    else if t.value !in closure then None
    else Up(closure, closure[t.value].parent, n - 1)
  }

  /** The closure loops keep a verified tree a verified tree. */
  lemma {:induction false} ClosureStaysRooted(
    base: map<Id, Rollout>, candidates: map<Id, Rollout>, expected: Option<Id>, closure: map<Id, Rollout>
  )
    requires base.Keys !! candidates.Keys && Rooted(base) && Descends(base)
    requires forall t :: t in closure <==> t in base || Linked(base, candidates, expected, t)
    requires forall t :: t in closure ==> t in candidates + base && closure[t] == (candidates + base)[t]
    requires forall t :: !WrongDepth(base, candidates, expected, t)
    ensures Rooted(closure) && Descends(closure)
  {
    hide LinkedWithin;
    forall t | t in closure && closure[t].parent.Some?
      ensures closure[t].parent.value in closure && closure[t].depth == closure[closure[t].parent.value].depth + 1
    {
      if t !in base {
        LinkedParent(base, candidates, expected, t);
        assert !WrongDepth(base, candidates, expected, t);
      }
    }
  }

  lemma LinkedParent(base: map<Id, Rollout>, candidates: map<Id, Rollout>, expected: Option<Id>, t: Id)
    requires Linked(base, candidates, expected, t)
    ensures t in candidates
    ensures candidates[t].parent.Some? ==>
      candidates[t].parent.value in base || Linked(base, candidates, expected, candidates[t].parent.value)
  {
    var n: nat :| LinkedWithin(base, candidates, expected, t, n);
    if candidates[t].parent.Some? && candidates[t].parent.value !in base {
      assert LinkedWithin(base, candidates, expected, candidates[t].parent.value, n - 1);
    }
  }

  /** The members strictly above a depth; the walk's remaining distance. */
  function Above(closure: map<Id, Rollout>, depth: int): set<Id> {
    set t | t in closure && closure[t].depth < depth
  }

  lemma AboveShrinks(closure: map<Id, Rollout>, t: Id, depth: int)
    requires t in closure && closure[t].depth < depth
    ensures |Above(closure, closure[t].depth)| < |Above(closure, depth)|
  {
    assert t in Above(closure, depth) && t !in Above(closure, closure[t].depth);
    SubsetSize(Above(closure, closure[t].depth), Above(closure, depth) - {t});
  }

  /**
   Walk from a member to its root. The depth relation makes the walk end; it fails exactly when some
   ancestor is missing, and otherwise collects exactly the ancestors.
   */
  method CollectAncestors(closure: map<Id, Rollout>, start: Id) returns (r: Result<set<Id>, Error>)
    requires Descends(closure) && start in closure
    ensures r.Failure? ==> r.error == LostAncestor(start)
    ensures r.Failure? ==> exists n: nat :: IsLost(closure, start, n)
    ensures r.Success? ==> forall n: nat :: !IsLost(closure, start, n)
    ensures r.Success? ==> forall a :: a in r.value <==> exists n: nat :: IsAncestor(closure, start, n, a)
    ensures Rooted(closure) ==> r.Success?
  {
    var selected: set<Id> := {};
    var at := closure[start].parent;
    ghost var steps: nat := 0;
    ghost var depth := closure[start].depth;
    assert Up(closure, Some(start), 1) == at by { assert Up(closure, closure[start].parent, 0) == at; }
    while at.Some?
      invariant Up(closure, Some(start), steps + 1) == at
      invariant at.Some? && at.value in closure ==> closure[at.value].depth < depth
      invariant forall a :: a in selected <==> exists n: nat :: n < steps && IsAncestor(closure, start, n, a)
      invariant forall n: nat :: n < steps ==> !IsLost(closure, start, n)
      invariant Rooted(closure) && at.Some? ==> at.value in closure
      decreases |Above(closure, depth)|, if at.Some? then 1 else 0
    {
      if at.value !in closure {
        assert IsLost(closure, start, steps);
        return Failure(LostAncestor(start));
      }
      AboveShrinks(closure, at.value, depth);
      UpNext(closure, Some(start), steps + 1);
      assert IsAncestor(closure, start, steps, at.value);
      selected := selected + {at.value};
      depth := closure[at.value].depth;
      at := closure[at.value].parent;
      steps := steps + 1;
    }
    forall n: nat | n >= steps ensures !IsLost(closure, start, n) {
      UpStops(closure, Some(start), steps + 1, n + 1);
    }
    forall n: nat, a | n >= steps ensures !IsAncestor(closure, start, n, a) {
      UpStops(closure, Some(start), steps + 1, n + 1);
    }
    return Success(selected);
  }

  predicate IsAncestor(closure: map<Id, Rollout>, start: Id, n: nat, a: Id) {
    Up(closure, Some(start), n + 1) == Some(a)
  }

  /** The parent reached after `n` further levels is missing. */
  predicate IsLost(closure: map<Id, Rollout>, start: Id, n: nat) {
    var a := Up(closure, Some(start), n + 1);
    a.Some? && a.value !in closure
  }

  lemma {:induction false} UpNext(closure: map<Id, Rollout>, t: Option<Id>, n: nat)
    ensures var a := Up(closure, t, n);
            Up(closure, t, n + 1) == if a.None? || a.value !in closure then None else closure[a.value].parent
    decreases n
  {
    if n > 0 && t.Some? && t.value in closure {
      UpNext(closure, closure[t.value].parent, n - 1);
    }
  }

  lemma {:induction false} UpStops(closure: map<Id, Rollout>, t: Option<Id>, m: nat, n: nat)
    requires Up(closure, t, m).None? && m <= n
    ensures Up(closure, t, n).None?
    decreases n
  {
    if m < n {
      UpStops(closure, t, m, n - 1);
      UpNext(closure, t, n - 1);
    }
  }
}
