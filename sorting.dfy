/** Python's `sorted()` on a set of integers. */
module Sorting {

  predicate Increasing(s: seq<int>)
  {
    forall i, j :: 0 <= i < j < |s| ==> s[i] < s[j]
  }

  /** A set with an element has a least one. */
  lemma {:induction false} MinExists(s: set<int>)
    requires exists x :: x in s
    ensures exists m :: m in s && forall x :: x in s ==> m <= x
    decreases |s|
  {
    var y :| y in s;
    var rest := s - {y};
    if exists x :: x in rest {
      MinExists(rest);
      var m :| m in rest && forall x :: x in rest ==> m <= x;
      var least := LeastAfterAdding(s, y, rest, m);
    } else {
      OnlyElement(s, y, rest);
    }
  }

  lemma LeastAfterAdding(s: set<int>, y: int, rest: set<int>, m: int) returns (least: int)
    requires y in s && rest == s - {y}
    requires m in rest && forall x :: x in rest ==> m <= x
    ensures least in s && forall x :: x in s ==> least <= x
  {
    least := if y < m then y else m;
    forall x | x in s ensures least <= x {
      if x != y {
        assert x in rest;
      }
    }
  }

  lemma OnlyElement(s: set<int>, y: int, rest: set<int>)
    requires y in s && rest == s - {y}
    requires !exists x :: x in rest
    ensures forall x :: x in s ==> y <= x
  {
    forall x | x in s ensures y <= x {
      assert x == y || x in rest;
    }
  }

  /** `sorted(keys)`. */
  function SortedKeys(keys: set<int>): (r: seq<int>)
    ensures Increasing(r)
    ensures forall x :: x in r <==> x in keys
    decreases |keys|
  {
    if !exists x :: x in keys then []
    else
      MinExists(keys);
      var m :| m in keys && forall x :: x in keys ==> m <= x;
      var rest := SortedKeys(keys - {m});
      LeastInFront(keys, m, rest);
      [m] + rest
  }

  /** The least key in front of the others, increasing, is the keys increasing. */
  lemma LeastInFront(keys: set<int>, m: int, rest: seq<int>)
    requires m in keys && forall x :: x in keys ==> m <= x
    requires Increasing(rest) && forall x :: x in rest <==> x in keys - {m}
    ensures Increasing([m] + rest)
    ensures forall x :: x in [m] + rest <==> x in keys
  {
    var s := [m] + rest;
    forall i, j | 0 <= i < j < |s| ensures s[i] < s[j] {
      assert s[j] == rest[j - 1] && rest[j - 1] in keys - {m};
      if i > 0 {
        assert s[i] == rest[i - 1];
      }
    }
  }

  /** An increasing sequence has as many elements as the set of its elements. */
  lemma {:induction false} IncreasingCount(s: seq<int>, keys: set<int>)
    requires Increasing(s) && forall x :: x in s <==> x in keys
    ensures |s| == |keys|
    decreases |s|
  {
    if s != [] {
      var rest := keys - {s[0]};
      assert forall x :: x in s[1..] <==> x in rest by {
        forall x ensures x in s[1..] <==> x in rest {
          if x in s[1..] {
            var i :| 1 <= i < |s| && s[i] == x;
            assert s[0] < s[i];
          }
          if x in rest {
            var i :| 0 <= i < |s| && s[i] == x;
            assert i != 0;
            assert s[1..][i - 1] == x;
          }
        }
      }
      IncreasingCount(s[1..], rest);
    } else {
      assert forall x :: x !in keys;
      assert keys == {};
    }
  }
}
