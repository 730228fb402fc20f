/**
 * The LINQ set operation the rule engine and the walker merge lists with.
 * Enumerable.Union(a, b) yields the elements of a and then of b, skipping
 * every element equal to one already yielded: it is Distinct(a + b).
 */
module Linq {

  predicate NoDuplicates<T(==)>(s: seq<T>)
  {
    forall i, j :: 0 <= i < j < |s| ==> s[i] != s[j]
  }

  /** Enumerable.Distinct: the first occurrence of every element, in order. */
  function Distinct<T(==)>(s: seq<T>): (r: seq<T>)
    ensures NoDuplicates(r)
    ensures forall i :: 0 <= i < |r| ==> r[i] in s
    ensures forall i :: 0 <= i < |s| ==> s[i] in r
    ensures |r| <= |s|
    decreases |s|
  {
    if s == [] then []
    else
      var d := Distinct(s[..|s| - 1]);
      if s[|s| - 1] in d then d else d + [s[|s| - 1]]
  }

  /** Distinct keeps exactly the elements of its input. */
  lemma InDistinct<T>(s: seq<T>, x: T)
    ensures x in Distinct(s) <==> x in s
  {
    if x in s {
      var i :| 0 <= i < |s| && s[i] == x;
    }
    if x in Distinct(s) {
      var i :| 0 <= i < |Distinct(s)| && Distinct(s)[i] == x;
    }
  }

  /** Enumerable.Union under the elements' value equality. */
  function Union<T(==)>(a: seq<T>, b: seq<T>): seq<T>
  {
    Distinct(a + b)
  }

  /** A list without repeated elements passes through Distinct unchanged. */
  lemma {:induction false} DistinctOfNoDuplicates<T>(s: seq<T>)
    requires NoDuplicates(s)
    ensures Distinct(s) == s
    decreases |s|
  {
    if s != [] {
      var init := s[..|s| - 1];
      assert NoDuplicates(init);
      DistinctOfNoDuplicates(init);
      assert s[|s| - 1] !in init;
      assert init + [s[|s| - 1]] == s;
    }
  }

  /** Merging in steps is merging once: Distinct(Distinct(a) + b) == Distinct(a + b). */
  lemma {:induction false} DistinctAppend<T>(a: seq<T>, b: seq<T>)
    ensures Distinct(Distinct(a) + b) == Distinct(a + b)
    decreases |b|
  {
    if b == [] {
      assert Distinct(a) + b == Distinct(a);
      assert a + b == a;
      DistinctOfNoDuplicates(Distinct(a));
    } else {
      var b' := b[..|b| - 1];
      var x := b[|b| - 1];
      DistinctAppend(a, b');
      assert (Distinct(a) + b)[..|Distinct(a) + b| - 1] == Distinct(a) + b';
      assert (a + b)[..|a + b| - 1] == a + b';
    }
  }

  /** Union with a duplicate-free list adds exactly the new elements of b, after a. */
  lemma UnionExtends<T>(a: seq<T>, b: seq<T>)
    requires NoDuplicates(a)
    ensures |Union(a, b)| >= |a| && Union(a, b)[..|a|] == a
    ensures |Union(a, b)| == |a| <==> forall i :: 0 <= i < |b| ==> b[i] in a
  {
    UnionPrefix(a, b);
  }

  lemma {:induction false} UnionPrefix<T>(a: seq<T>, b: seq<T>)
    requires NoDuplicates(a)
    ensures |Distinct(a + b)| >= |a| && Distinct(a + b)[..|a|] == a
    ensures |Distinct(a + b)| == |a| <==> forall i :: 0 <= i < |b| ==> b[i] in a
    decreases |b|
  {
    if b == [] {
      assert a + b == a;
      DistinctOfNoDuplicates(a);
    } else {
      var b' := b[..|b| - 1];
      var x := b[|b| - 1];
      UnionPrefix(a, b');
      assert (a + b)[..|a + b| - 1] == a + b';
      var d := Distinct(a + b');
      assert forall i :: 0 <= i < |a| ==> (a + b')[i] == a[i];
      if x !in d {
        assert (d + [x])[..|a|] == d[..|a|];
        assert x !in a;
      } else if |d| == |a| {
        assert d == a;
        forall i | 0 <= i < |b| ensures b[i] in a {
          if i < |b| - 1 {
            assert b[i] == b'[i];
          }
        }
      }
      if forall i :: 0 <= i < |b| ==> b[i] in a {
        forall i | 0 <= i < |b'| ensures b'[i] in a {
          assert b'[i] == b[i];
        }
        assert x in a;
      }
    }
  }

  /** Appending keeps every prefix of what was there. */
  lemma PrefixOfAppend<T>(x: seq<T>, y: seq<T>, z: seq<T>)
    requires |y| >= |x| && y[..|x|] == x
    ensures (y + z)[..|x|] == x
  {
    assert (y + z)[..|x|] == y[..|x|];
  }

  predicate SortedBy<T>(s: seq<T>, rank: T -> int)
  {
    forall i, j :: 0 <= i < j < |s| ==> rank(s[i]) <= rank(s[j])
  }

  /** A list sorted by some rank stays sorted when Distinct drops repeats. */
  lemma {:induction false} DistinctKeepsOrder<T>(s: seq<T>, rank: T -> int)
    requires SortedBy(s, rank)
    ensures SortedBy(Distinct(s), rank)
    decreases |s|
  {
    if s != [] {
      var init := s[..|s| - 1];
      assert SortedBy(init, rank);
      DistinctKeepsOrder(init, rank);
      var d := Distinct(init);
      forall i | 0 <= i < |d| ensures rank(d[i]) <= rank(s[|s| - 1]) {
        assert d[i] in init;
        var k :| 0 <= k < |init| && init[k] == d[i];
        assert s[k] == d[i];
      }
    }
  }
}
