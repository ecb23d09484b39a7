/** Python string operations the engine relies on: ordering of date keys and lower-casing. */
module Text {

  /** Python's `a <= b` on `str`: lexicographic order by code point, a prefix sorting first. */
  predicate LexLessEq(a: string, b: string)
    decreases |a|
  {
    |a| == 0 || (|b| != 0 && (a[0] < b[0] || (a[0] == b[0] && LexLessEq(a[1..], b[1..]))))
  }

  lemma {:induction false} LexReflexive(a: string)
    ensures LexLessEq(a, a)
    decreases |a|
  {
    if |a| != 0 {
      LexReflexive(a[1..]);
    }
  }

  lemma {:induction false} LexTotal(a: string, b: string)
    ensures LexLessEq(a, b) || LexLessEq(b, a)
    decreases |a|
  {
    if |a| != 0 && |b| != 0 && a[0] == b[0] {
      LexTotal(a[1..], b[1..]);
    }
  }

  lemma {:induction false} LexAntisymmetric(a: string, b: string)
    requires LexLessEq(a, b) && LexLessEq(b, a)
    ensures a == b
    decreases |a|
  {
    if |a| != 0 {
      LexAntisymmetric(a[1..], b[1..]);
      assert a == [a[0]] + a[1..];
      assert b == [b[0]] + b[1..];
    }
  }

  lemma {:induction false} LexTransitive(a: string, b: string, c: string)
    requires LexLessEq(a, b) && LexLessEq(b, c)
    ensures LexLessEq(a, c)
    decreases |a|
  {
    if |a| != 0 && a[0] == b[0] && b[0] == c[0] {
      LexTransitive(a[1..], b[1..], c[1..]);
    }
  }

  lemma {:induction false} LexMaxExists(s: set<string>)
    requires s != {}
    ensures exists m :: m in s && forall x :: x in s ==> LexLessEq(x, m)
  {
    var y :| y in s;
    var rest := s - {y};
    LexReflexive(y);
    if rest == {} {
      assert s == {y};
      assert forall x :: x in s ==> LexLessEq(x, y);
    } else {
      LexMaxExists(rest);
      var m :| m in rest && forall x :: x in rest ==> LexLessEq(x, m);
      LexTotal(m, y);
      LexReflexive(m);
      var greatest := if LexLessEq(m, y) then y else m;
      forall x | x in s
        ensures LexLessEq(x, greatest)
      {
        if x != y {
          assert x in rest;
          if greatest == y {
            LexTransitive(x, m, y);
          }
        }
      }
    }
  }

  /** The greatest key of a non-empty set of strings: Python's `sorted(keys)[-1]`. */
  function LexMax(s: set<string>): (m: string)
    requires s != {}
    ensures m in s
    ensures forall x :: x in s ==> LexLessEq(x, m)
  {
    LexMaxExists(s);
    forall a, b | LexLessEq(a, b) && LexLessEq(b, a)
      ensures a == b
    {
      LexAntisymmetric(a, b);
    }
    var m :| m in s && forall x :: x in s ==> LexLessEq(x, m);
    m
  }

  /** Only the greatest key satisfies the defining property of `LexMax`. */
  lemma LexMaxUnique(s: set<string>, m: string)
    requires m in s
    requires forall x :: x in s ==> LexLessEq(x, m)
    ensures LexMax(s) == m
  {
    LexAntisymmetric(LexMax(s), m);
  }

  /** ASCII lower-casing of one character. */
  function LowerChar(c: char): char
  {
    if 'A' <= c <= 'Z' then (c as int + 32) as char else c
  }

  /** Python's `s.lower()` restricted to ASCII letters. */
  function Lower(s: string): (r: string)
    ensures |r| == |s|
    ensures forall i :: 0 <= i < |s| ==> r[i] == LowerChar(s[i])
  {
    seq(|s|, i requires 0 <= i < |s| => LowerChar(s[i]))
  }
}
