/** Sequence helpers shared by the minigame models. */
module Seqs {
  /** Array.prototype.reverse on a copy: the same elements, last first. */
  function Reversed<T>(s: seq<T>): (r: seq<T>)
    ensures |r| == |s| && forall i :: 0 <= i < |s| ==> r[i] == s[|s| - 1 - i]
  {
    if s == [] then [] else Reversed(s[1..]) + [s[0]]
  }

  lemma ReversedSnoc<T>(s: seq<T>, x: T)
    ensures Reversed(s + [x]) == [x] + Reversed(s)
  {
    var r := Reversed(s + [x]);
    assert forall i :: 0 <= i < |r| ==> r[i] == ([x] + Reversed(s))[i];
  }

  /** `Math.floor(Math.random() * (i + 1))` (randInt(0, i)) for a draw u in [0, 1). */
  function Pick(u: real, i: nat): (j: int)
    requires 0.0 <= u < 1.0
    ensures 0 <= j <= i
  {
    assert u * (i + 1) as real < (i + 1) as real by {
      assert (1.0 - u) * (i + 1) as real > 0.0;
    }
    (u * (i + 1) as real).Floor
  }

  function Swap<T>(s: seq<T>, i: nat, j: nat): (r: seq<T>)
    requires i < |s| && j < |s|
    ensures |r| == |s|
  {
    s[i := s[j]][j := s[i]]
  }

  /** The shuffle loop from index i down to 1, the i-th draw being random(i). */
  function Shuffled<T>(s: seq<T>, random: int -> real, i: int): (r: seq<T>)
    requires i < |s|
    requires forall k :: 0.0 <= random(k) < 1.0
    ensures |r| == |s|
    decreases i
  {
    if i <= 0 then s else Shuffled(Swap(s, i, Pick(random(i), i)), random, i - 1)
  }

  lemma SwapPermutes<T>(s: seq<T>, i: nat, j: nat)
    requires i < |s| && j < |s|
    ensures multiset(Swap(s, i, j)) == multiset(s)
  {
    var t := s[i := s[j]];
    assert multiset(t) == multiset(s) - multiset{s[i]} + multiset{s[j]};
  }

  /** Shuffling only reorders. */
  lemma {:induction false} ShuffledPermutes<T>(s: seq<T>, random: int -> real, i: int)
    requires i < |s| && forall k :: 0.0 <= random(k) < 1.0
    ensures multiset(Shuffled(s, random, i)) == multiset(s)
    decreases i
  {
    if i > 0 {
      var j := Pick(random(i), i);
      SwapPermutes(s, i, j);
      ShuffledPermutes(Swap(s, i, j), random, i - 1);
    }
  }

  /** The in-place shuffle: each step swaps a[i] with a[j] for a drawn j <= i. */
  method Shuffle<T>(a: array<T>, random: int -> real)
    requires forall k :: 0.0 <= random(k) < 1.0
    modifies a
    ensures a[..] == Shuffled(old(a[..]), random, a.Length - 1)
  {
    var i := a.Length - 1;
    while i > 0
      invariant i < a.Length
      invariant Shuffled(a[..], random, i) == Shuffled(old(a[..]), random, a.Length - 1)
      decreases i
    {
      var j := Pick(random(i), i);
      ghost var before := a[..];
      a[i], a[j] := a[j], a[i];
      assert a[..] == Swap(before, i, j);
      i := i - 1;
    }
  }
}
