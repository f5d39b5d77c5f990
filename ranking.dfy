/**
 * Sort-then-number loops. Where the services sort a list of players with a stable sort and then
 * hand out the numbers 1..n in the sorted order, the number a player receives is one more than
 * the number of players that the comparator (extended by the original position as the final
 * tie-break, which is what stability means) puts strictly before it. That count is its rank.
 */
module Ranking {
  import opened Sorting

  /** A strict total order on positions. */
  ghost predicate StrictTotal(lt: (int, int) -> bool)
  {
    (forall a :: !lt(a, a)) &&
    (forall a, b, c :: lt(a, b) && lt(b, c) ==> lt(a, c)) &&
    (forall a, b :: a != b ==> lt(a, b) || lt(b, a))
  }

  /** The positions 0..n-1 in order. */
  function Range(n: nat): (r: seq<int>)
    ensures |r| == n && forall i :: 0 <= i < n ==> r[i] == i
  {
    seq(n, i => i)
  }

  /** The reflexive closure of lt, the order the stable sort is given. */
  function Le(lt: (int, int) -> bool): (int, int) -> bool
  {
    (a, b) => a == b || lt(a, b)
  }

  /** The number of positions in [0, n) that lt puts strictly before i. */
  function Rank(lt: (int, int) -> bool, n: nat, i: int): nat
  {
    |set j | 0 <= j < n && lt(j, i)|
  }

  ghost predicate Distinct(o: seq<int>)
  {
    forall a, b :: 0 <= a < b < |o| ==> o[a] != o[b]
  }

  lemma LeTotalPreorder(lt: (int, int) -> bool)
    requires StrictTotal(lt)
    ensures TotalPreorder(Le(lt))
  {
  }

  lemma {:induction false} RangeCount(n: nat, v: int)
    ensures multiset(Range(n))[v] == if 0 <= v < n then 1 else 0
  {
    if n > 0 {
      assert Range(n) == Range(n - 1) + [n - 1];
      RangeCount(n - 1, v);
    }
  }

  lemma {:induction false} TwoOccurrences(o: seq<int>, a: int, b: int)
    requires 0 <= a < b < |o| && o[a] == o[b]
    ensures multiset(o)[o[a]] >= 2
  {
    assert o == o[..b] + o[b..];
    assert o[a] == o[..b][a];
    assert o[b] == o[b..][0];
    assert multiset(o) == multiset(o[..b]) + multiset(o[b..]);
  }

  /** A sequence with the same elements as Range(n) holds every position exactly once. */
  lemma PermutationOfRange(o: seq<int>, n: nat)
    requires multiset(o) == multiset(Range(n))
    ensures Distinct(o)
    ensures forall k :: 0 <= k < |o| ==> 0 <= o[k] < n
    ensures forall v :: 0 <= v < n ==> v in o
  {
    forall a, b | 0 <= a < b < |o| ensures o[a] != o[b] {
      if o[a] == o[b] {
        TwoOccurrences(o, a, b);
        RangeCount(n, o[a]);
        assert false;
      }
    }
    forall k | 0 <= k < |o| ensures 0 <= o[k] < n {
      assert o[k] in multiset(o);
      RangeCount(n, o[k]);
    }
    forall v | 0 <= v < n ensures v in o {
      RangeCount(n, v);
      assert v in multiset(o);
    }
  }

  /** The first k entries of a sequence without repetitions are k different values. */
  lemma {:induction false} DistinctPrefixCard(o: seq<int>, k: nat)
    requires Distinct(o) && k <= |o|
    ensures |set m | 0 <= m < k :: o[m]| == k
  {
    if k > 0 {
      DistinctPrefixCard(o, k - 1);
      var prev := set m | 0 <= m < k - 1 :: o[m];
      assert (set m | 0 <= m < k :: o[m]) == prev + {o[k - 1]};
      assert o[k - 1] !in prev;
    }
  }

  /** The position of an element in the sorted order is its rank. */
  lemma PositionIsRank(lt: (int, int) -> bool, n: nat)
    requires StrictTotal(lt)
    ensures |SortBy(Range(n), Le(lt))| == n
    ensures multiset(SortBy(Range(n), Le(lt))) == multiset(Range(n))
    ensures Distinct(SortBy(Range(n), Le(lt)))
    ensures forall k :: 0 <= k < n ==> 0 <= SortBy(Range(n), Le(lt))[k] < n
    ensures forall v :: 0 <= v < n ==> v in SortBy(Range(n), Le(lt))
    ensures forall k :: 0 <= k < n ==> Rank(lt, n, SortBy(Range(n), Le(lt))[k]) == k
  {
    var le := Le(lt);
    var o := SortBy(Range(n), le);
    LeTotalPreorder(lt);
    SortBySorted(Range(n), le);
    PermutationOfRange(o, n);
    forall k | 0 <= k < n ensures Rank(lt, n, o[k]) == k {
      var x := o[k];
      var before := set j | 0 <= j < n && lt(j, x);
      var prefix := set m | 0 <= m < k :: o[m];
      forall y | y in prefix ensures y in before {
        var m :| 0 <= m < k && o[m] == y;
        assert le(o[m], o[k]);
      }
      forall j | j in before ensures j in prefix {
        assert j in o;
        var m :| 0 <= m < |o| && o[m] == j;
      }
      assert before == prefix;
      DistinctPrefixCard(o, k);
    }
  }

  /** The positions in the order the stable sort puts them. */
  function SortedPositions(lt: (int, int) -> bool, n: nat): seq<int>
  {
    SortBy(Range(n), Le(lt))
  }

  /** Ranks are 0..n-1, each taken once, and they follow lt. */
  lemma RankIsPermutation(lt: (int, int) -> bool, n: nat)
    requires StrictTotal(lt)
    ensures forall i :: 0 <= i < n ==> Rank(lt, n, i) < n
    ensures forall i, j :: 0 <= i < n && 0 <= j < n && lt(i, j) ==> Rank(lt, n, i) < Rank(lt, n, j)
    ensures forall i, j :: 0 <= i < n && 0 <= j < n && i != j ==> Rank(lt, n, i) != Rank(lt, n, j)
    ensures |SortedPositions(lt, n)| == n
    ensures forall k :: 0 <= k < n ==> 0 <= SortedPositions(lt, n)[k] < n && Rank(lt, n, SortedPositions(lt, n)[k]) == k
  {
    var o := SortedPositions(lt, n);
    PositionIsRank(lt, n);
    forall i | 0 <= i < n ensures Rank(lt, n, i) < n {
      assert i in o;
      var k :| 0 <= k < |o| && o[k] == i;
    }
    forall i, j | 0 <= i < n && 0 <= j < n && lt(i, j) ensures Rank(lt, n, i) < Rank(lt, n, j) {
      RankMonotone(lt, n, i, j);
    }
    forall i, j | 0 <= i < n && 0 <= j < n && i != j ensures Rank(lt, n, i) != Rank(lt, n, j) {
      if lt(i, j) {
        RankMonotone(lt, n, i, j);
      } else {
        RankMonotone(lt, n, j, i);
      }
    }
  }

  /** Along the sorted positions lt holds strictly, and every position appears. */
  lemma SortedPositionsIncrease(lt: (int, int) -> bool, n: nat)
    requires StrictTotal(lt)
    ensures |SortedPositions(lt, n)| == n
    ensures forall a, b :: 0 <= a < b < n ==> lt(SortedPositions(lt, n)[a], SortedPositions(lt, n)[b])
    ensures forall i :: 0 <= i < n ==> i in SortedPositions(lt, n)
  {
    var o := SortedPositions(lt, n);
    PositionIsRank(lt, n);
    LeTotalPreorder(lt);
    SortBySorted(Range(n), Le(lt));
    forall a, b | 0 <= a < b < n ensures lt(o[a], o[b]) {
      assert Le(lt)(o[a], o[b]);
    }
  }

  lemma RankMonotone(lt: (int, int) -> bool, n: nat, i: int, j: int)
    requires StrictTotal(lt)
    requires 0 <= i < n && 0 <= j < n && lt(i, j)
    ensures Rank(lt, n, i) < Rank(lt, n, j)
  {
    var a := set k | 0 <= k < n && lt(k, i);
    var b := set k | 0 <= k < n && lt(k, j);
    assert a <= b;
    assert i in b - a;
    assert b == a + (b - a);
    assert a * (b - a) == {};
  }

  /** A strictly increasing run of m integers drawn from lo..lo+m-1 is exactly lo, lo+1, ... */
  lemma StrictlyIncreasingFill(s: seq<int>, lo: int)
    requires forall k :: 0 <= k < |s| ==> lo <= s[k] < lo + |s|
    requires forall a, b :: 0 <= a < b < |s| ==> s[a] < s[b]
    ensures forall k :: 0 <= k < |s| ==> s[k] == lo + k
  {
    forall k | 0 <= k < |s| ensures s[k] == lo + k {
      IncreasingLower(s, lo, k);
      IncreasingUpper(s, lo, k);
    }
  }

  lemma {:induction false} IncreasingLower(s: seq<int>, lo: int, k: nat)
    requires k < |s|
    requires forall j :: 0 <= j < |s| ==> lo <= s[j]
    requires forall a, b :: 0 <= a < b < |s| ==> s[a] < s[b]
    ensures s[k] >= lo + k
  {
    if k > 0 {
      IncreasingLower(s, lo, k - 1);
      assert s[k - 1] < s[k];
    }
  }

  lemma {:induction false} IncreasingUpper(s: seq<int>, lo: int, k: nat)
    requires k < |s|
    requires forall j :: 0 <= j < |s| ==> s[j] < lo + |s|
    requires forall a, b :: 0 <= a < b < |s| ==> s[a] < s[b]
    ensures s[k] <= lo + k
    decreases |s| - k
  {
    if k < |s| - 1 {
      IncreasingUpper(s, lo, k + 1);
      assert s[k] < s[k + 1];
    }
  }
}
