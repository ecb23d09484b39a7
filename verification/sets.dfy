/** Extremes of finite sets of naturals, used for week numbers and client numbers. */
module Sets {

  /** The least element of a non-empty set, as a proof witness. */
  lemma {:induction false} MinWitness(s: set<nat>) returns (m: nat)
    requires s != {}
    ensures m in s && forall x :: x in s ==> m <= x
  {
    var y :| y in s;
    var rest := s - {y};
    if rest == {} {
      m := y;
      forall x | x in s
        ensures m <= x
      {
        assert x !in rest;
      }
    } else {
      var m' := MinWitness(rest);
      m := if y < m' then y else m';
      forall x | x in s
        ensures m <= x
      {
        if x != y {
          assert x in rest;
        }
      }
    }
  }

  /** The greatest element of a non-empty set, as a proof witness. */
  lemma {:induction false} MaxWitness(s: set<nat>) returns (m: nat)
    requires s != {}
    ensures m in s && forall x :: x in s ==> x <= m
  {
    var y :| y in s;
    var rest := s - {y};
    if rest == {} {
      m := y;
      forall x | x in s
        ensures x <= m
      {
        assert x !in rest;
      }
    } else {
      var m' := MaxWitness(rest);
      m := if m' < y then y else m';
      forall x | x in s
        ensures x <= m
      {
        if x != y {
          assert x in rest;
        }
      }
    }
  }

  lemma MinExists(s: set<nat>)
    requires s != {}
    ensures exists m :: m in s && forall x :: x in s ==> m <= x
  {
    var m := MinWitness(s);
  }

  lemma MaxExists(s: set<nat>)
    requires s != {}
    ensures exists m :: m in s && forall x :: x in s ==> x <= m
  {
    var m := MaxWitness(s);
  }

  /** A subset is no larger than its superset. */
  lemma SubsetCard<T>(a: set<T>, b: set<T>)
    requires a <= b
    ensures |a| <= |b|
  {
    assert b == a + (b - a);
  }

  /** Removing a subset removes its size. */
  lemma SubsetDiffCard<T>(a: set<T>, b: set<T>)
    requires b <= a
    ensures |a - b| == |a| - |b|
  {
    assert a == (a - b) + b;
    assert (a - b) !! b;
  }

  /** Taking `x` off the to-do set `todo` adds `x` to the done part of `s`, if `x` is in `s`. */
  lemma DoneStep<T>(s: set<T>, todo: set<T>, x: T)
    requires x in todo
    ensures |s - (todo - {x})| == |s - todo| + (if x in s then 1 else 0)
  {
    if x in s {
      assert s - (todo - {x}) == (s - todo) + {x};
    } else {
      assert s - (todo - {x}) == s - todo;
    }
  }

  /** The least element of a non-empty set. */
  function Min(s: set<nat>): (m: nat)
    requires s != {}
    ensures m in s
    ensures forall x :: x in s ==> m <= x
  {
    MinExists(s);
    var m :| m in s && forall x :: x in s ==> m <= x;
    m
  }

  /** The greatest element of a set, or 0 for the empty set (Python's `max(xs) if xs else 0`). */
  function MaxOrZero(s: set<nat>): (m: nat)
    ensures s == {} ==> m == 0
    ensures s != {} ==> m in s
    ensures forall x :: x in s ==> x <= m
  {
    if s == {} then 0
    else
      MaxExists(s);
      var m :| m in s && forall x :: x in s ==> x <= m;
      m
  }
}
