/** Row-sequence building blocks for the SQL aggregates: COUNT, SUM, MAX, WHERE and DISTINCT. */
module Collections {

  /** `COUNT(CASE WHEN p THEN 1 END)`: the number of elements satisfying p. */
  function Count<T>(s: seq<T>, p: T -> bool): (n: nat)
    ensures n <= |s|
  {
    if s == [] then 0 else (if p(s[0]) then 1 else 0) + Count(s[1..], p)
  }

  /** The elements satisfying p, in their original order (a WHERE or HAVING clause). */
  function Filter<T(!new)>(s: seq<T>, p: T -> bool): (r: seq<T>)
    ensures |r| == Count(s, p)
    ensures forall x :: x in r <==> x in s && p(x)
    ensures multiset(r) <= multiset(s)
  {
    if s == [] then []
    else
      assert s == [s[0]] + s[1..];
      if p(s[0]) then [s[0]] + Filter(s[1..], p) else Filter(s[1..], p)
  }

  /** Filtering with two predicates that agree on the sequence gives the same rows. */
  lemma {:induction false} FilterCongruent<T(!new)>(s: seq<T>, p: T -> bool, q: T -> bool)
    requires forall x :: x in s ==> p(x) == q(x)
    ensures Filter(s, p) == Filter(s, q)
  {
    if s != [] {
      FilterCongruent(s[1..], p, q);
    }
  }

  /** A predicate true of every element keeps the whole sequence. */
  lemma {:induction false} FilterAll<T(!new)>(s: seq<T>, p: T -> bool)
    requires forall x :: x in s ==> p(x)
    ensures Filter(s, p) == s
  {
    if s != [] {
      FilterAll(s[1..], p);
    }
  }

  /** Filtering by a predicate no element meets keeps nothing. */
  lemma {:induction false} FilterNone<T(!new)>(s: seq<T>, p: T -> bool)
    requires forall x :: x in s ==> !p(x)
    ensures Filter(s, p) == []
  {
    if s != [] {
      FilterNone(s[1..], p);
    }
  }

  /** Filtering by a stronger predicate keeps no more elements. */
  lemma {:induction false} FilterStronger<T(!new)>(s: seq<T>, p: T -> bool, q: T -> bool)
    requires forall x :: x in s && q(x) ==> p(x)
    ensures multiset(Filter(s, q)) <= multiset(Filter(s, p))
    ensures Count(s, q) <= Count(s, p)
  {
    if s != [] {
      FilterStronger(s[1..], p, q);
    }
  }

  /** Sum of an integer projection (SQL SUM over a non-NULL column). */
  function SumOf<T>(s: seq<T>, f: T -> int): int {
    if s == [] then 0 else f(s[0]) + SumOf(s[1..], f)
  }

  /** A constant projection sums to that constant times the length. */
  lemma {:induction false} SumOfConstant<T>(s: seq<T>, f: T -> int, c: int)
    requires forall x :: x in s ==> f(x) == c
    ensures SumOf(s, f) == c * |s|
  {
    if s != [] {
      SumOfConstant(s[1..], f, c);
    }
  }

  /** SQL MAX over a non-empty group. */
  function MaxOf(s: seq<int>): (m: int)
    requires s != []
    ensures m in s
    ensures forall x :: x in s ==> x <= m
  {
    if |s| == 1 then s[0]
    else
      var rest := MaxOf(s[1..]);
      assert forall x :: x in s ==> x == s[0] || x in s[1..];
      if s[0] >= rest then s[0] else rest
  }

  /** Least element (SQL MIN over a non-empty group). */
  function MinOf(s: seq<int>): (m: int)
    requires s != []
    ensures m in s
    ensures forall x :: x in s ==> m <= x
  {
    if |s| == 1 then s[0]
    else
      var rest := MinOf(s[1..]);
      assert forall x :: x in s ==> x == s[0] || x in s[1..];
      if s[0] <= rest then s[0] else rest
  }

  function ToSet<T>(s: seq<T>): set<T> {
    set x | x in s
  }

  predicate NoDuplicates<T(==)>(s: seq<T>) {
    forall i, j :: 0 <= i < j < |s| ==> s[i] != s[j]
  }

  /** The distinct values of s, each once, in order of first occurrence (the keys of a GROUP BY). */
  function Distinct<T(==,!new)>(s: seq<T>): (r: seq<T>)
    ensures forall x :: x in r <==> x in s
    ensures NoDuplicates(r)
  {
    if s == [] then []
    else
      var rest := Distinct(s[..|s| - 1]);
      assert forall x :: x in s <==> x in s[..|s| - 1] || x == s[|s| - 1];
      if s[|s| - 1] in rest then rest else rest + [s[|s| - 1]]
  }

  /** A duplicate-free sequence has as many elements as its set. */
  lemma {:induction false} NoDuplicatesCardinality<T>(s: seq<T>)
    requires NoDuplicates(s)
    ensures |ToSet(s)| == |s|
  {
    if s != [] {
      assert NoDuplicates(s[1..]) by {
        forall i, j | 0 <= i < j < |s[1..]| ensures s[1..][i] != s[1..][j] {
          assert s[1..][i] == s[i + 1] && s[1..][j] == s[j + 1];
        }
      }
      NoDuplicatesCardinality(s[1..]);
      assert ToSet(s) == ToSet(s[1..]) + {s[0]};
      assert s[0] !in ToSet(s[1..]);
    }
  }

  /** So the number of groups equals the number of distinct keys. */
  lemma DistinctCardinality<T(!new)>(s: seq<T>)
    ensures |Distinct(s)| == |ToSet(s)|
  {
    NoDuplicatesCardinality(Distinct(s));
    assert ToSet(Distinct(s)) == ToSet(s);
  }

  /** The first n elements (`LIMIT n`). */
  function Take<T>(s: seq<T>, n: nat): (r: seq<T>)
    ensures |r| <= n && |r| <= |s|
    ensures |r| == if |s| < n then |s| else n
    ensures r == s[..|r|]
  {
    if |s| <= n then s else s[..n]
  }

  /** A prefix holds no element more often than the whole sequence. */
  lemma TakeSubMultiset<T>(s: seq<T>, n: nat)
    ensures multiset(Take(s, n)) <= multiset(s)
  {
    var r := Take(s, n);
    assert s == r + s[|r|..];
  }

  /** A column of a row set: the key or value of every row, in row order. */
  function Project<T, K>(s: seq<T>, key: T -> K): (r: seq<K>)
    ensures |r| == |s|
    ensures forall i :: 0 <= i < |s| ==> r[i] == key(s[i])
  {
    if s == [] then [] else [key(s[0])] + Project(s[1..], key)
  }

  /** The group keys of `GROUP BY key`, each once, in order of first occurrence. */
  function GroupKeys<T, K(==,!new)>(s: seq<T>, key: T -> K): seq<K> {
    Distinct(Project(s, key))
  }

  /** The rows of one group. */
  function Group<T(!new), K(==)>(s: seq<T>, key: T -> K, k: K): seq<T> {
    Filter(s, (x: T) => key(x) == k)
  }

  /** A key is a group key exactly when some row has it. */
  lemma GroupKeyIff<T, K(!new)>(s: seq<T>, key: T -> K, k: K)
    ensures k in GroupKeys(s, key) <==> exists i :: 0 <= i < |s| && key(s[i]) == k
  {
    if k in Project(s, key) {
      var i :| 0 <= i < |s| && Project(s, key)[i] == k;
    }
  }

  /** Every group key has at least one row. */
  lemma GroupNonEmpty<T(!new), K(!new)>(s: seq<T>, key: T -> K, k: K)
    requires k in GroupKeys(s, key)
    ensures Group(s, key, k) != []
  {
    GroupKeyIff(s, key, k);
    var i :| 0 <= i < |s| && key(s[i]) == k;
    assert s[i] in Group(s, key, k);
  }

  /** The sum of f over each group of `keys`, added up. */
  function GroupSums<T(!new), K(==)>(s: seq<T>, key: T -> K, f: T -> int, keys: seq<K>): int {
    if keys == [] then 0 else SumOf(Group(s, key, keys[0]), f) + GroupSums(s, key, f, keys[1..])
  }

  lemma {:induction false} GroupSumsOfNothing<T(!new), K>(key: T -> K, f: T -> int, keys: seq<K>)
    ensures GroupSums([], key, f, keys) == 0
  {
    if keys != [] {
      GroupSumsOfNothing(key, f, keys[1..]);
    }
  }

  lemma {:induction false} GroupSumsCons<T(!new), K>(x: T, s: seq<T>, key: T -> K, f: T -> int, keys: seq<K>)
    requires NoDuplicates(keys)
    ensures GroupSums([x] + s, key, f, keys) == GroupSums(s, key, f, keys) + (if key(x) in keys then f(x) else 0)
  {
    if keys != [] {
      var t := [x] + s;
      assert t[1..] == s;
      assert NoDuplicates(keys[1..]) by {
        forall i, j | 0 <= i < j < |keys[1..]| ensures keys[1..][i] != keys[1..][j] {
          assert keys[1..][i] == keys[i + 1] && keys[1..][j] == keys[j + 1];
        }
      }
      GroupSumsCons(x, s, key, f, keys[1..]);
      if key(x) == keys[0] {
        assert key(x) !in keys[1..];
        assert Group(t, key, keys[0]) == [x] + Group(s, key, keys[0]);
      } else {
        assert Group(t, key, keys[0]) == Group(s, key, keys[0]);
        assert key(x) in keys <==> key(x) in keys[1..];
      }
    }
  }

  /** Summing per group and then over the groups is summing over all rows: GROUP BY loses no row and counts none twice. */
  lemma {:induction false} GroupSumsTotal<T(!new), K>(s: seq<T>, key: T -> K, f: T -> int, keys: seq<K>)
    requires NoDuplicates(keys)
    requires forall i :: 0 <= i < |s| ==> key(s[i]) in keys
    ensures GroupSums(s, key, f, keys) == SumOf(s, f)
  {
    if s == [] {
      GroupSumsOfNothing(key, f, keys);
    } else {
      assert s == [s[0]] + s[1..];
      GroupSumsCons(s[0], s[1..], key, f, keys);
      GroupSumsTotal(s[1..], key, f, keys);
    }
  }

  /** A sequence has at least as many elements as its set (COUNT(DISTINCT) never exceeds COUNT). */
  lemma {:induction false} ToSetBound<T>(s: seq<T>)
    ensures |ToSet(s)| <= |s|
  {
    if s != [] {
      ToSetBound(s[1..]);
      assert ToSet(s) == ToSet(s[1..]) + {s[0]};
    }
  }

  /** Three conditions of which every element meets exactly one split the count of the sequence. */
  lemma {:induction false} CountPartition<T>(s: seq<T>, p: T -> bool, q: T -> bool, r: T -> bool)
    requires forall x :: x in s ==> (p(x) || q(x) || r(x))
    requires forall x :: x in s ==> !(p(x) && q(x)) && !(p(x) && r(x)) && !(q(x) && r(x))
    ensures Count(s, p) + Count(s, q) + Count(s, r) == |s|
  {
    if s != [] {
      assert s[0] in s;
      assert forall x :: x in s[1..] ==> x in s;
      CountPartition(s[1..], p, q, r);
    }
  }
}
