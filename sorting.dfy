/** ORDER BY, modelled by a stable insertion sort under a caller-supplied "may come before" relation. */
module Sorting {

  /** Consecutive elements are in order: what an ORDER BY clause promises. */
  predicate Sorted<T>(s: seq<T>, before: (T, T) -> bool) {
    forall i :: 0 < i < |s| ==> before(s[i - 1], s[i])
  }

  /** Any two elements of s can be compared. */
  predicate TotalOn<T>(s: seq<T>, before: (T, T) -> bool) {
    forall i, j :: 0 <= i < |s| && 0 <= j < |s| ==> before(s[i], s[j]) || before(s[j], s[i])
  }

  /** The order chains: what comes before something that comes before c comes before c. */
  ghost predicate Transitive<T(!new)>(before: (T, T) -> bool) {
    forall a, b, c :: before(a, b) && before(b, c) ==> before(a, c)
  }

  /** In a sorted sequence under a transitive order, every element comes before every later one. */
  lemma {:induction false} SortedChain<T(!new)>(s: seq<T>, before: (T, T) -> bool, i: nat, j: nat)
    requires Sorted(s, before) && Transitive(before)
    requires i < j < |s|
    ensures before(s[i], s[j])
    decreases j - i
  {
    if i + 1 < j {
      SortedChain(s, before, i, j - 1);
      assert before(s[j - 1], s[j]);
    }
  }

  function Insert<T>(x: T, s: seq<T>, before: (T, T) -> bool): (r: seq<T>)
    ensures multiset(r) == multiset(s) + multiset{x}
    ensures |r| == |s| + 1
    ensures r[0] == x || (s != [] && r[0] == s[0])
  {
    if s == [] || before(x, s[0]) then [x] + s
    else
      assert s == [s[0]] + s[1..];
      [s[0]] + Insert(x, s[1..], before)
  }

  function SortBy<T>(s: seq<T>, before: (T, T) -> bool): (r: seq<T>)
    ensures multiset(r) == multiset(s)
    ensures |r| == |s|
  {
    if s == [] then []
    else
      assert s == [s[0]] + s[1..];
      Insert(s[0], SortBy(s[1..], before), before)
  }

  lemma {:induction false} InsertSorted<T>(x: T, s: seq<T>, before: (T, T) -> bool)
    requires Sorted(s, before)
    requires forall y :: y in s ==> before(x, y) || before(y, x)
    ensures Sorted(Insert(x, s, before), before)
  {
    if s != [] && !before(x, s[0]) {
      var t := Insert(x, s[1..], before);
      assert Sorted(s[1..], before) by {
        forall i | 0 < i < |s[1..]| ensures before(s[1..][i - 1], s[1..][i]) {
          assert s[1..][i - 1] == s[i] && s[1..][i] == s[i + 1];
        }
      }
      InsertSorted(x, s[1..], before);
      assert before(s[0], t[0]) by {
        assert before(s[0], x);
        if t[0] != x {
          assert t[0] == s[1];
        }
      }
      var r := [s[0]] + t;
      forall i | 0 < i < |r| ensures before(r[i - 1], r[i]) {
        if i > 1 {
          assert r[i - 1] == t[i - 2] && r[i] == t[i - 1];
        }
      }
    }
  }

  /** The sort orders every sequence whose elements are pairwise comparable. */
  lemma {:induction false} SortBySorted<T>(s: seq<T>, before: (T, T) -> bool)
    requires TotalOn(s, before)
    ensures Sorted(SortBy(s, before), before)
  {
    if s != [] {
      assert TotalOn(s[1..], before) by {
        forall i, j | 0 <= i < |s[1..]| && 0 <= j < |s[1..]|
          ensures before(s[1..][i], s[1..][j]) || before(s[1..][j], s[1..][i])
        {
          assert s[1..][i] == s[i + 1] && s[1..][j] == s[j + 1];
        }
      }
      SortBySorted(s[1..], before);
      var t := SortBy(s[1..], before);
      forall y | y in t ensures before(s[0], y) || before(y, s[0]) {
        assert y in multiset(t);
        assert y in s[1..];
        var k :| 0 <= k < |s[1..]| && s[1..][k] == y;
        assert s[k + 1] == y;
      }
      InsertSorted(s[0], t, before);
    }
  }
}
