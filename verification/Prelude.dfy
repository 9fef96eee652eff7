/** Option and the finite sums the ledger proofs are built on. */
module Prelude {

  datatype Option<+T> = None | Some(value: T) {
    function GetOr(default: T): T {
      match this
      case Some(v) => v
      case None => default
    }
  }

  /** The sum of f over a finite set, taken in some order. */
  ghost function Sum<T(!new)>(s: set<T>, f: T -> int): int {
    if s == {} then 0 else
      var x :| x in s;
      f(x) + Sum(s - {x}, f)
  }

  /** The order does not matter: any element can be taken first. */
  lemma {:induction false} SumSplit<T(!new)>(s: set<T>, f: T -> int, x: T)
    requires x in s
    ensures Sum(s, f) == f(x) + Sum(s - {x}, f)
  {
    var y :| y in s && Sum(s, f) == f(y) + Sum(s - {y}, f);
    if y != x {
      SumSplit(s - {y}, f, x);
      SumSplit(s - {x}, f, y);
      assert s - {x} - {y} == s - {y} - {x};
    }
  }

  lemma SumInsert<T(!new)>(s: set<T>, f: T -> int, x: T)
    requires x !in s
    ensures Sum(s + {x}, f) == f(x) + Sum(s, f)
  {
    SumSplit(s + {x}, f, x);
    assert s + {x} - {x} == s;
  }

  lemma {:induction false} SumCongruent<T(!new)>(s: set<T>, f: T -> int, g: T -> int)
    requires forall x :: x in s ==> f(x) == g(x)
    ensures Sum(s, f) == Sum(s, g)
  {
    if s != {} {
      var x :| x in s;
      SumSplit(s, f, x);
      SumSplit(s, g, x);
      SumCongruent(s - {x}, f, g);
    }
  }

  lemma {:induction false} SumZero<T(!new)>(s: set<T>, f: T -> int)
    requires forall x :: x in s ==> f(x) == 0
    ensures Sum(s, f) == 0
  {
    if s != {} {
      var x :| x in s;
      SumSplit(s, f, x);
      SumZero(s - {x}, f);
    }
  }

  /** Elements that contribute nothing can be left out. */
  lemma {:induction false} SumSupport<T(!new)>(s: set<T>, t: set<T>, f: T -> int)
    requires t <= s && forall x :: x in s - t ==> f(x) == 0
    ensures Sum(s, f) == Sum(t, f)
    decreases |s - t|
  {
    if s - t == {} {
      assert s == (s - t) + t;
      assert (s - t) + t == t;
    } else {
      var x :| x in s - t;
      SumSplit(s, f, x);
      assert (s - {x}) - t == (s - t) - {x};
      SumSupport(s - {x}, t, f);
    }
  }
}
