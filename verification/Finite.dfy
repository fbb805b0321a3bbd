/** Sizes of finite sets, and strings outside them. */
module Finite {
  lemma {:induction false} SubsetSize<T>(a: set<T>, b: set<T>)
    requires a <= b
    ensures |a| <= |b|
  {
    if a != {} {
      var x :| x in a;
      SubsetSize(a - {x}, b - {x});
    }
  }

  predicate Shorter(s: set<string>, n: nat) {
    forall t :: t in s ==> |t| < n
  }

  lemma {:induction false} LongEnough(s: set<string>)
    ensures exists n: nat :: Shorter(s, n)
  {
    if s == {} {
      assert Shorter(s, 0);
    } else {
      var x :| x in s;
      LongEnough(s - {x});
      var n: nat :| Shorter(s - {x}, n);
      assert forall t :: t in s ==> t == x || t in s - {x};
      assert Shorter(s, if |x| < n then n else |x| + 1);
    }
  }

  /** A string outside a finite set. */
  ghost function Unused(s: set<string>): (t: string)
    ensures t !in s
  {
    LongEnough(s);
    var n: nat :| Shorter(s, n);
    seq(n, _ => 'x')
  }
}
