/**
 * The LINQ pipeline the command-line drivers run over their findings:
 * GroupBy(key).Select(key, Count), OrderByDescending(Count), Take(n).
 */
module Aggregation {
  import opened Linq

  /** One element of the Select(group => new { group.Key, Count = group.Count() }) projection. */
  datatype Group = Group(key: string, count: nat)

  function KeysOf(g: seq<Group>): seq<string>
  {
    seq(|g|, i requires 0 <= i < |g| => g[i].key)
  }

  /** The sum of the counts of a list of groups. */
  function Total(g: seq<Group>): nat
  {
    if g == [] then 0 else g[0].count + Total(g[1..])
  }

  /** Count one more occurrence of k: in its group when there is one, else in a new last group. */
  function AddKey(g: seq<Group>, k: string): (r: seq<Group>)
    ensures |g| <= |r| <= |g| + 1
    decreases |g|
  {
    if g == [] then [Group(k, 1)]
    else if g[0].key == k then [Group(k, g[0].count + 1)] + g[1..]
    else [g[0]] + AddKey(g[1..], k)
  }

  /**
   * Enumerable.GroupBy followed by Count: one group per distinct key, in the
   * order in which the keys first appear.
   */
  function GroupBy(keys: seq<string>): (r: seq<Group>)
    ensures |r| <= |keys|
    ensures r == [] <==> keys == []
  {
    if keys == [] then [] else AddKey(GroupBy(keys[..|keys| - 1]), keys[|keys| - 1])
  }

  /** OrderByDescending(Count): insert x before the first group whose count is not larger. */
  function InsertDescending(x: Group, sorted: seq<Group>): (r: seq<Group>)
    ensures |r| == |sorted| + 1
    decreases |sorted|
  {
    if sorted == [] || x.count >= sorted[0].count then [x] + sorted
    else [sorted[0]] + InsertDescending(x, sorted[1..])
  }

  /** Enumerable.OrderByDescending(g => g.Count), a stable sort. */
  function OrderByCountDescending(g: seq<Group>): (r: seq<Group>)
    ensures |r| == |g|
  {
    if g == [] then [] else InsertDescending(g[0], OrderByCountDescending(g[1..]))
  }

  /** Enumerable.Take(n): the first n elements, or all when there are fewer. */
  function Take(g: seq<Group>, n: nat): (r: seq<Group>)
    ensures |r| <= n && |r| <= |g|
    ensures |r| == n || r == g
    ensures r == g[..|r|]
  {
    if |g| <= n then g else g[..n]
  }

  predicate SortedDescending(g: seq<Group>)
  {
    forall i, j :: 0 <= i < j < |g| ==> g[i].count >= g[j].count
  }

  /** The groups of g with count c, in order. */
  function WithCount(g: seq<Group>, c: nat): seq<Group>
  {
    if g == [] then [] else (if g[0].count == c then [g[0]] else []) + WithCount(g[1..], c)
  }
}

/** What the grouping, ordering and Take(10) steps guarantee. */
module AggregationProperties {
  import opened Linq
  import opened Aggregation

  lemma KeysOfCons(x: Group, g: seq<Group>)
    ensures KeysOf([x] + g) == [x.key] + KeysOf(g)
  {
  }

  /** Counting k again keeps the keys and their order, and appends k when it is new. */
  lemma {:induction false} AddKeyKeys(g: seq<Group>, k: string)
    ensures KeysOf(AddKey(g, k)) == if k in KeysOf(g) then KeysOf(g) else KeysOf(g) + [k]
    decreases |g|
  {
    if g != [] {
      KeysOfCons(g[0], g[1..]);
      assert g == [g[0]] + g[1..];
      if g[0].key == k {
        KeysOfCons(Group(k, g[0].count + 1), g[1..]);
      } else {
        AddKeyKeys(g[1..], k);
        KeysOfCons(g[0], AddKey(g[1..], k));
      }
    }
  }

  /** Counting k again adds one to k's group and leaves every other group as it was. */
  lemma {:induction false} AddKeyAt(g: seq<Group>, k: string, i: nat)
    requires i < |g| && NoDuplicates(KeysOf(g))
    ensures i < |AddKey(g, k)|
    ensures AddKey(g, k)[i] == if g[i].key == k then Group(k, g[i].count + 1) else g[i]
    decreases |g|
  {
    if i > 0 {
      KeysOfCons(g[0], g[1..]);
      assert g == [g[0]] + g[1..];
      if g[0].key != k {
        assert KeysOf(g[1..]) == KeysOf(g)[1..];
        AddKeyAt(g[1..], k, i - 1);
      } else {
        assert KeysOf(g)[0] == k && KeysOf(g)[i] == g[i].key;
      }
    }
  }

  /** A new key gets a last group of count 1. */
  lemma {:induction false} AddKeyNew(g: seq<Group>, k: string)
    requires k !in KeysOf(g)
    ensures |AddKey(g, k)| == |g| + 1 && AddKey(g, k)[|g|] == Group(k, 1)
    decreases |g|
  {
    if g != [] {
      KeysOfCons(g[0], g[1..]);
      assert g == [g[0]] + g[1..];
      AddKeyNew(g[1..], k);
    }
  }

  /**
   * The keys of GroupBy are the distinct keys of the input in the order of
   * their first occurrence (Distinct), so no key is repeated and every
   * input key has a group.
   */
  lemma {:induction false} GroupByKeys(keys: seq<string>)
    ensures KeysOf(GroupBy(keys)) == Distinct(keys)
    ensures NoDuplicates(KeysOf(GroupBy(keys)))
    ensures forall k :: k in KeysOf(GroupBy(keys)) <==> k in keys
    decreases |keys|
  {
    if keys != [] {
      var init := keys[..|keys| - 1];
      GroupByKeys(init);
      AddKeyKeys(GroupBy(init), keys[|keys| - 1]);
    }
    DistinctIsDuplicateFree(keys);
    forall k ensures k in KeysOf(GroupBy(keys)) <==> k in keys {
      InDistinct(keys, k);
    }
  }

  lemma {:induction false} DistinctIsDuplicateFree<T>(s: seq<T>)
    ensures NoDuplicates(Distinct(s))
    decreases |s|
  {
    if s != [] {
      DistinctIsDuplicateFree(s[..|s| - 1]);
    }
  }

  /** Counting one more key keeps every group's count equal to its key's occurrences. */
  lemma AddKeyCounts(g: seq<Group>, init: seq<string>, k: string, i: nat)
    requires NoDuplicates(KeysOf(g)) && forall x :: x in KeysOf(g) <==> x in init
    requires forall j :: 0 <= j < |g| ==> g[j].count == multiset(init)[g[j].key]
    requires i < |AddKey(g, k)|
    ensures AddKey(g, k)[i].count == multiset(init + [k])[AddKey(g, k)[i].key]
  {
    AddKeyKeys(g, k);
    if i < |g| {
      AddKeyAt(g, k, i);
    } else {
      assert k !in KeysOf(g);
      AddKeyNew(g, k);
    }
  }

  /** Every group counts exactly the occurrences of its key in the input. */
  lemma {:induction false} GroupByCounts(keys: seq<string>)
    ensures forall i :: 0 <= i < |GroupBy(keys)| ==>
      GroupBy(keys)[i].count == multiset(keys)[GroupBy(keys)[i].key]
    decreases |keys|
  {
    if keys != [] {
      var init := keys[..|keys| - 1];
      var k := keys[|keys| - 1];
      assert keys == init + [k];
      GroupByCounts(init);
      GroupByKeys(init);
      forall i | 0 <= i < |GroupBy(keys)|
        ensures GroupBy(keys)[i].count == multiset(keys)[GroupBy(keys)[i].key]
      {
        AddKeyCounts(GroupBy(init), init, k, i);
      }
    }
  }

  lemma {:induction false} TotalOfAddKey(g: seq<Group>, k: string)
    ensures Total(AddKey(g, k)) == Total(g) + 1
    decreases |g|
  {
    if g != [] && g[0].key != k {
      TotalOfAddKey(g[1..], k);
      assert ([g[0]] + AddKey(g[1..], k))[1..] == AddKey(g[1..], k);
    } else if g != [] {
      assert ([Group(k, g[0].count + 1)] + g[1..])[1..] == g[1..];
    }
  }

  /** The group counts add up to the number of grouped findings, and each is at least 1. */
  lemma {:induction false} GroupByTotal(keys: seq<string>)
    ensures Total(GroupBy(keys)) == |keys|
    ensures forall i :: 0 <= i < |GroupBy(keys)| ==> GroupBy(keys)[i].count >= 1
    decreases |keys|
  {
    if keys != [] {
      GroupByTotal(keys[..|keys| - 1]);
      TotalOfAddKey(GroupBy(keys[..|keys| - 1]), keys[|keys| - 1]);
    }
    GroupByCounts(keys);
    GroupByKeys(keys);
    forall i | 0 <= i < |GroupBy(keys)| ensures GroupBy(keys)[i].count >= 1 {
      assert KeysOf(GroupBy(keys))[i] == GroupBy(keys)[i].key;
    }
  }

  /** Inserting a group whose count is within a bound keeps every count within it. */
  lemma {:induction false} InsertDescendingBounded(x: Group, s: seq<Group>, bound: nat)
    requires x.count <= bound && forall i :: 0 <= i < |s| ==> s[i].count <= bound
    ensures forall i :: 0 <= i < |InsertDescending(x, s)| ==> InsertDescending(x, s)[i].count <= bound
    decreases |s|
  {
    if s != [] && x.count < s[0].count {
      InsertDescendingBounded(x, s[1..], bound);
    }
  }

  lemma {:induction false} InsertDescendingSorted(x: Group, s: seq<Group>)
    requires SortedDescending(s)
    ensures SortedDescending(InsertDescending(x, s))
    decreases |s|
  {
    if s != [] && x.count < s[0].count {
      InsertDescendingSorted(x, s[1..]);
      InsertDescendingBounded(x, s[1..], s[0].count);
    }
  }

  lemma {:induction false} InsertDescendingPermutes(x: Group, s: seq<Group>)
    ensures multiset(InsertDescending(x, s)) == multiset(s) + multiset{x}
    decreases |s|
  {
    if s != [] && x.count < s[0].count {
      InsertDescendingPermutes(x, s[1..]);
      assert s == [s[0]] + s[1..];
    }
  }

  /** x lands before every group of its own count, and the others keep their order. */
  lemma {:induction false} InsertDescendingStable(x: Group, s: seq<Group>, c: nat)
    requires SortedDescending(s)
    ensures WithCount(InsertDescending(x, s), c) == (if x.count == c then [x] else []) + WithCount(s, c)
    decreases |s|
  {
    if s != [] && x.count < s[0].count {
      InsertDescendingStable(x, s[1..], c);
      var r := InsertDescending(x, s[1..]);
      assert ([s[0]] + r)[1..] == r;
      if x.count == c {
        assert s[0].count != c;
      }
    }
  }

  /**
   * OrderByDescending(Count) is a stable sort: the result is ordered by
   * descending count, is a permutation of the input, and the groups of any one
   * count keep their input order.
   */
  lemma {:induction false} OrderByCountDescendingSorts(g: seq<Group>)
    ensures SortedDescending(OrderByCountDescending(g))
    ensures multiset(OrderByCountDescending(g)) == multiset(g)
    ensures forall c :: WithCount(OrderByCountDescending(g), c) == WithCount(g, c)
    decreases |g|
  {
    if g != [] {
      OrderByCountDescendingSorts(g[1..]);
      var rest := OrderByCountDescending(g[1..]);
      InsertDescendingSorted(g[0], rest);
      InsertDescendingPermutes(g[0], rest);
      assert g == [g[0]] + g[1..];
      forall c ensures WithCount(OrderByCountDescending(g), c) == WithCount(g, c) {
        InsertDescendingStable(g[0], rest, c);
      }
    }
  }

  /** A list with a first element has no repeats iff its tail has none and lacks that element. */
  lemma NoDuplicatesCons<T>(x: T, s: seq<T>)
    ensures NoDuplicates([x] + s) <==> x !in s && NoDuplicates(s)
  {
    var l := [x] + s;
    assert l[1..] == s;
    if x !in s && NoDuplicates(s) {
      forall i, j | 0 <= i < j < |l| ensures l[i] != l[j] {
        if i == 0 {
          assert l[j] == s[j - 1];
        } else {
          assert l[i] == s[i - 1] && l[j] == s[j - 1];
        }
      }
    }
    if NoDuplicates(l) {
      forall i | 0 <= i < |s| ensures s[i] != x {
        assert l[0] != l[i + 1];
      }
      forall i, j | 0 <= i < j < |s| ensures s[i] != s[j] {
        assert l[i + 1] != l[j + 1];
      }
    }
  }

  lemma {:induction false} InsertDescendingKeeps(x: Group, s: seq<Group>)
    ensures Total(InsertDescending(x, s)) == x.count + Total(s)
    ensures forall k :: k in KeysOf(InsertDescending(x, s)) <==> k == x.key || k in KeysOf(s)
    ensures NoDuplicates(KeysOf(s)) && x.key !in KeysOf(s) ==> NoDuplicates(KeysOf(InsertDescending(x, s)))
    decreases |s|
  {
    KeysOfCons(x, s);
    NoDuplicatesCons(x.key, KeysOf(s));
    if s != [] && x.count < s[0].count {
      var r := InsertDescending(x, s[1..]);
      InsertDescendingKeeps(x, s[1..]);
      assert s == [s[0]] + s[1..];
      KeysOfCons(s[0], s[1..]);
      KeysOfCons(s[0], r);
      NoDuplicatesCons(s[0].key, KeysOf(s[1..]));
      NoDuplicatesCons(s[0].key, KeysOf(r));
      assert ([s[0]] + r)[1..] == r;
    } else {
      assert ([x] + s)[1..] == s;
    }
  }

  /**
   * The sort loses no count and no key: the total and the set of keys are
   * unchanged, and distinct keys stay distinct.
   */
  lemma {:induction false} OrderByCountDescendingKeepsGroups(g: seq<Group>)
    ensures Total(OrderByCountDescending(g)) == Total(g)
    ensures forall k :: k in KeysOf(OrderByCountDescending(g)) <==> k in KeysOf(g)
    ensures NoDuplicates(KeysOf(g)) ==> NoDuplicates(KeysOf(OrderByCountDescending(g)))
    decreases |g|
  {
    if g != [] {
      OrderByCountDescendingKeepsGroups(g[1..]);
      InsertDescendingKeeps(g[0], OrderByCountDescending(g[1..]));
      assert g == [g[0]] + g[1..];
      KeysOfCons(g[0], g[1..]);
      NoDuplicatesCons(g[0].key, KeysOf(g[1..]));
    }
  }

  /**
   * Take(10) after the sort keeps at most ten groups, and no group it drops
   * has a larger count than a group it keeps.
   */
  lemma TopTen(g: seq<Group>)
    ensures var sorted := OrderByCountDescending(g);
      var top := Take(sorted, 10);
      |top| <= 10 && top == sorted[..|top|] && SortedDescending(top) &&
      (forall i, j :: 0 <= i < |top| <= j < |sorted| ==> top[i].count >= sorted[j].count)
  {
    OrderByCountDescendingSorts(g);
  }
}
