/**
 * A stable insertion sort under a total preorder. It stands for the stable library sorts the
 * sources call (java.util.List.sort, Array.prototype.sort): elements that compare equal keep
 * their original relative order.
 */
module Sorting {

  ghost predicate TotalPreorder<T(!new)>(le: (T, T) -> bool)
  {
    (forall a, b :: le(a, b) || le(b, a)) &&
    (forall a, b, c :: le(a, b) && le(b, c) ==> le(a, c))
  }

  ghost predicate SortedBy<T>(s: seq<T>, le: (T, T) -> bool)
  {
    forall i, j :: 0 <= i < j < |s| ==> le(s[i], s[j])
  }

  /** Inserts x in front of the first element that is not at most x. */
  function InsertBy<T>(x: T, s: seq<T>, le: (T, T) -> bool): (r: seq<T>)
    ensures multiset(r) == multiset(s) + multiset{x}
    ensures |r| == |s| + 1
  {
    if s == [] then [x]
    else if le(s[0], x) then
      assert s == [s[0]] + s[1..];
      [s[0]] + InsertBy(x, s[1..], le)
    else [x] + s
  }

  /** Sorts by inserting the elements left to right; a later element lands after the earlier ones it equals. */
  function SortBy<T>(s: seq<T>, le: (T, T) -> bool): (r: seq<T>)
    ensures multiset(r) == multiset(s)
    ensures |r| == |s|
  {
    if s == [] then []
    else
      assert s == s[..|s| - 1] + [s[|s| - 1]];
      InsertBy(s[|s| - 1], SortBy(s[..|s| - 1], le), le)
  }

  lemma {:induction false} InsertBySorted<T(!new)>(x: T, s: seq<T>, le: (T, T) -> bool)
    requires TotalPreorder(le) && SortedBy(s, le)
    ensures SortedBy(InsertBy(x, s, le), le)
    decreases |s|
  {
    if s != [] && le(s[0], x) {
      InsertBySorted(x, s[1..], le);
      var t := InsertBy(x, s[1..], le);
      assert forall k :: 0 <= k < |t| ==> le(s[0], t[k]) by {
        forall k | 0 <= k < |t| ensures le(s[0], t[k]) {
          assert t[k] in multiset(t);
          assert t[k] in multiset(s[1..]) + multiset{x};
          if t[k] in multiset(s[1..]) {
            var m :| 0 <= m < |s[1..]| && s[1..][m] == t[k];
            assert s[1 + m] == t[k];
          }
        }
      }
    }
  }

  /** The result is ordered. */
  lemma {:induction false} SortBySorted<T(!new)>(s: seq<T>, le: (T, T) -> bool)
    requires TotalPreorder(le)
    ensures SortedBy(SortBy(s, le), le)
    decreases |s|
  {
    if s != [] {
      SortBySorted(s[..|s| - 1], le);
      InsertBySorted(s[|s| - 1], SortBy(s[..|s| - 1], le), le);
    }
  }

  /** The elements of s that lie in the class of key (equal to it under le both ways), in order. */
  function ClassOf<T>(s: seq<T>, key: T, le: (T, T) -> bool): (r: seq<T>)
    ensures |r| <= |s|
  {
    if s == [] then []
    else (if le(s[0], key) && le(key, s[0]) then [s[0]] else []) + ClassOf(s[1..], key, le)
  }

  lemma {:induction false} ClassOfAppend<T>(s: seq<T>, x: T, key: T, le: (T, T) -> bool)
    ensures ClassOf(s + [x], key, le) == ClassOf(s, key, le) + (if le(x, key) && le(key, x) then [x] else [])
    decreases |s|
  {
    if s == [] {
      assert s + [x] == [x];
    } else {
      assert (s + [x])[1..] == s[1..] + [x];
      ClassOfAppend(s[1..], x, key, le);
    }
  }

  lemma {:induction false} ClassOfInsert<T(!new)>(x: T, s: seq<T>, key: T, le: (T, T) -> bool)
    requires TotalPreorder(le) && SortedBy(s, le)
    ensures ClassOf(InsertBy(x, s, le), key, le)
         == ClassOf(s, key, le) + (if le(x, key) && le(key, x) then [x] else [])
    decreases |s|
  {
    var cx := if le(x, key) && le(key, x) then [x] else [];
    if s == [] {
    } else if le(s[0], x) {
      var tail := s[1..];
      assert SortedBy(tail, le);
      ClassOfInsert(x, tail, key, le);
      ClassOfInsertStep(x, s, key, le);
    } else {
      // x goes first; every element of s is strictly above x, so none shares a class with x
      if le(x, key) && le(key, x) {
        ClassOfAbove(s, x, key, le);
      }
      ClassOfInsertFront(x, s, key, le);
    }
  }

  lemma {:induction false} ClassOfInsertStep<T>(x: T, s: seq<T>, key: T, le: (T, T) -> bool)
    requires s != [] && le(s[0], x)
    requires ClassOf(InsertBy(x, s[1..], le), key, le)
          == ClassOf(s[1..], key, le) + (if le(x, key) && le(key, x) then [x] else [])
    ensures ClassOf(InsertBy(x, s, le), key, le)
         == ClassOf(s, key, le) + (if le(x, key) && le(key, x) then [x] else [])
  {
    var y := InsertBy(x, s[1..], le);
    assert InsertBy(x, s, le) == [s[0]] + y;
    ClassOfCons(s[0], y, key, le);
    ClassOfCons(s[0], s[1..], key, le);
    assert [s[0]] + s[1..] == s;
  }

  lemma ClassOfCons<T>(a: T, s: seq<T>, key: T, le: (T, T) -> bool)
    ensures ClassOf([a] + s, key, le) == (if le(a, key) && le(key, a) then [a] else []) + ClassOf(s, key, le)
  {
    assert ([a] + s)[0] == a;
    assert ([a] + s)[1..] == s;
  }

  lemma {:induction false} ClassOfInsertFront<T>(x: T, s: seq<T>, key: T, le: (T, T) -> bool)
    requires s != [] && !le(s[0], x)
    requires le(x, key) && le(key, x) ==> ClassOf(s, key, le) == []
    ensures ClassOf(InsertBy(x, s, le), key, le)
         == ClassOf(s, key, le) + (if le(x, key) && le(key, x) then [x] else [])
  {
    assert InsertBy(x, s, le) == [x] + s;
    assert ([x] + s)[1..] == s;
  }

  lemma {:induction false} ClassOfAbove<T(!new)>(s: seq<T>, x: T, key: T, le: (T, T) -> bool)
    requires TotalPreorder(le) && SortedBy(s, le)
    requires s != [] && !le(s[0], x) && le(x, key) && le(key, x)
    ensures ClassOf(s, key, le) == []
    decreases |s|
  {
    assert !le(s[0], key);
    if |s| > 1 {
      assert le(s[0], s[1]);
      assert SortedBy(s[1..], le);
      ClassOfAbove(s[1..], x, key, le);
    }
  }

  /** Stability: within each class of equal elements the sorted order is the original order. */
  lemma {:induction false} SortByStable<T(!new)>(s: seq<T>, key: T, le: (T, T) -> bool)
    requires TotalPreorder(le)
    ensures ClassOf(SortBy(s, le), key, le) == ClassOf(s, key, le)
    decreases |s|
  {
    if s != [] {
      var init := s[..|s| - 1];
      assert s == init + [s[|s| - 1]];
      ClassOfAppend(init, s[|s| - 1], key, le);
      SortByStable(init, key, le);
      SortBySorted(init, le);
      ClassOfInsert(s[|s| - 1], SortBy(init, le), key, le);
    }
  }
}
