/**
 * Queue Commander (pages/QueueCommanderPage.jsx): the items 1..n arrive in a shuffled order, the
 * player enqueues them into a FIFO queue of bounded capacity and dequeues them into the output,
 * which must spell the level's target order. The Math.random draws are parameters; React state
 * is a value and each handler returns the next state.
 */
module QueueCommander {
  import opened Wrappers
  import opened Seqs

  /** clamp(n, lo, hi) = max(lo, min(hi, n)). */
  function Clamp(n: int, lo: int, hi: int): (r: int)
    requires lo <= hi
    ensures lo <= r <= hi
    ensures lo <= n <= hi ==> r == n
    ensures n < lo ==> r == lo
    ensures n > hi ==> r == hi
  {
    if n < lo then lo else if n > hi then hi else n
  }

  function Max(a: int, b: int): int
  {
    if a < b then b else a
  }

  /** The queue capacity of level L: 4, 4, 5, 5, 6, 6, 7, 7. */
  function Capacity(L: int): (c: int)
    requires 1 <= L <= 8
    ensures 4 <= c <= 7 && c == 4 + (L - 1) / 2
  {
    Clamp(4 + (L - 1) / 2, 4, 7)
  }

  /** The number of incoming items of level L: one more per level from 8, capped at 14 on level 8. */
  function IncomingCount(L: int): (n: int)
    requires 1 <= L <= 8
    ensures 8 <= n <= 14
    ensures L <= 7 ==> n == L + 7
    ensures L == 8 ==> n == 14
  {
    Clamp(8 + (L - 1), 8, 14)
  }

  /** The items 1..n in order. */
  function Range(n: nat): (s: seq<int>)
    ensures |s| == n && forall i :: 0 <= i < n ==> s[i] == i + 1
  {
    seq(n, i => i + 1)
  }

  /** `randInt(1, hi + 1)` for a draw u in [0, 1). */
  function Between(u: real, hi: nat): (k: int)
    requires 0.0 <= u < 1.0
    ensures 1 <= k <= hi + 1
  {
    Pick(u, hi) + 1
  }

  /** The level data makeLevel returns. */
  datatype Level = Level(level: int, capacity: int, incoming: seq<int>, target: seq<int>)

  /** What makeLevel guarantees: the level's knobs, the items 1..n in some order, target = incoming. */
  predicate WellFormed(d: Level)
  {
    1 <= d.level <= 8 && d.capacity == Capacity(d.level) && |d.incoming| == IncomingCount(d.level) &&
    multiset(d.incoming) == multiset(Range(|d.incoming|)) && d.target == d.incoming
  }

  /** shuffle: the in-place shuffle applied to a copy. */
  method ShuffleCopy(arr: seq<int>, random: int -> real) returns (s: seq<int>)
    requires forall k :: 0.0 <= random(k) < 1.0
    ensures s == Shuffled(arr, random, |arr| - 1)
    ensures multiset(s) == multiset(arr)
  {
    var a := new int[|arr|](i requires 0 <= i < |arr| => arr[i]);
    assert a[..] == arr;
    Shuffle(a, random);
    s := a[..];
    ShuffledPermutes(arr, random, |arr| - 1);
  }

  /** `while (q.length) target.push(q.shift())`. */
  method Flush(target: seq<int>, q: seq<int>) returns (out: seq<int>)
    ensures out == target + q
  {
    out := target;
    var rest := q;
    while |rest| > 0
      invariant out + rest == target + q
    {
      assert out + rest == out + [rest[0]] + rest[1..];
      out := out + [rest[0]];
      rest := rest[1..];
    }
  }

  /**
   * Levels 3 and 4: repeat "enqueue up to 2, dequeue 1", then flush. A FIFO queue hands the
   * items out in arrival order whatever the schedule, so the target is the incoming order.
   */
  method PairedTarget(items: seq<int>) returns (target: seq<int>)
    ensures target == items
  {
    target := [];
    var q: seq<int> := [];
    var i := 0;
    while i < |items|
      invariant 0 <= i <= |items|
      invariant target + q == items[..i]
      decreases |items| - i
    {
      var k := 0;
      ghost var i0 := i;
      while k < 2 && i < |items|
        invariant i0 <= i <= |items| && i == i0 + k
        invariant target + q == items[..i]
      {
        assert items[..i + 1] == items[..i] + [items[i]];
        q := q + [items[i]];
        i := i + 1;
        k := k + 1;
      }
      if |q| > 0 {
        assert target + q == target + [q[0]] + q[1..];
        target := target + [q[0]];
        q := q[1..];
      }
    }
    target := Flush(target, q);
    assert items[..i] == items;
  }

  /**
   * Levels 5 to 8: batches of 1..3 items in and 1..2 out, then flush; the k-th batch or pop
   * size is drawn from random(k). The target is again the incoming order.
   */
  method BatchedTarget(items: seq<int>, random: int -> real) returns (target: seq<int>)
    requires forall k :: 0.0 <= random(k) < 1.0
    ensures target == items
  {
    target := [];
    var q: seq<int> := [];
    var i := 0;
    var draw := 0;
    while i < |items|
      invariant 0 <= i <= |items|
      invariant target + q == items[..i]
      decreases |items| - i
    {
      var batch := Between(random(draw), 2);
      draw := draw + 1;
      var k := 0;
      ghost var i0 := i;
      while k < batch && i < |items|
        invariant i0 <= i <= |items| && i == i0 + k
        invariant target + q == items[..i]
      {
        assert items[..i + 1] == items[..i] + [items[i]];
        q := q + [items[i]];
        i := i + 1;
        k := k + 1;
      }
      var popCount := Between(random(draw), 1);
      draw := draw + 1;
      for m := 0 to popCount
        invariant target + q == items[..i]
      {
        if |q| > 0 {
          assert target + q == target + [q[0]] + q[1..];
          target := target + [q[0]];
          q := q[1..];
        }
      }
    }
    target := Flush(target, q);
    assert items[..i] == items;
  }

  /**
   * makeLevel: clamp the level, derive capacity and item count, shuffle 1..n and build the
   * target by the level's scheduling pattern, falling back to the incoming order when the
   * lengths differ. shuffleDraw feeds the shuffle and batchDraw the batch sizes.
   */
  method MakeLevel(level: int, shuffleDraw: int -> real, batchDraw: int -> real) returns (d: Level)
    requires forall k :: 0.0 <= shuffleDraw(k) < 1.0
    requires forall k :: 0.0 <= batchDraw(k) < 1.0
    ensures d.level == Clamp(level, 1, 8)
    ensures d.incoming == Shuffled(Range(IncomingCount(d.level)), shuffleDraw, IncomingCount(d.level) - 1)
    ensures WellFormed(d)
  {
    var L := Clamp(level, 1, 8);
    var capacity := Capacity(L);
    var incomingCount := IncomingCount(L);
    var items := ShuffleCopy(Range(incomingCount), shuffleDraw);
    assert |items| == incomingCount && multiset(items) == multiset(Range(|items|));
    var target := Schedule(L, items, batchDraw);
    if |target| != incomingCount {
      target := items;
    }
    d := Level(L, capacity, items, target);
  }

  /** The target pattern of level L: the incoming order, pairs with pauses, or random batches. */
  method Schedule(L: int, items: seq<int>, batchDraw: int -> real) returns (target: seq<int>)
    requires forall k :: 0.0 <= batchDraw(k) < 1.0
    ensures target == items
  {
    if L <= 2 {
      target := items;
    } else if L <= 4 {
      target := PairedTarget(items);
    } else {
      target := BatchedTarget(items, batchDraw);
    }
  }

  // ---------------------------------------------------------------------------------------
  // The round
  // ---------------------------------------------------------------------------------------

  datatype Status = Playing | Won | Lost

  /** The message line. */
  datatype Note =
    | Blank
    | NoMoreIncoming
    | QueueFull(capacity: int)
    | QueueEmpty
    | Wrong(front: int, expected: Option<int>)
    | PerfectSchedule(bonus: int)

  datatype Round = Round(data: Level, incomingIdx: nat, queue: seq<int>, output: seq<int>,
                         status: Status, errors: nat, note: Note)

  /** hardReset: the same level from the beginning. */
  function HardReset(g: Round): (r: Round)
    ensures r.data == g.data && r.incomingIdx == 0 && r.queue == [] && r.output == []
    ensures r.status == Playing && r.errors == 0
  {
    Round(g.data, 0, [], [], Playing, 0, Blank)
  }

  /** nextIncoming: the next arriving item, if any. */
  function NextIncoming(g: Round): (x: Option<int>)
    ensures x.Some? <==> g.incomingIdx < |g.data.incoming|
    ensures x.Some? ==> x.value == g.data.incoming[g.incomingIdx]
  {
    if g.incomingIdx < |g.data.incoming| then Some(g.data.incoming[g.incomingIdx]) else None
  }

  /** expectedNext: the target item the next dequeue must produce, if any. */
  function ExpectedNext(g: Round): (x: Option<int>)
    ensures x.Some? <==> |g.output| < |g.data.target|
    ensures x.Some? ==> x.value == g.data.target[|g.output|]
  {
    if |g.output| < |g.data.target| then Some(g.data.target[|g.output|]) else None
  }

  predicate Done(g: Round)
  {
    |g.output| == |g.data.target|
  }

  /** enqueue: move the next incoming item to the back of the queue, unless none is left or the queue is full. */
  function Enqueue(g: Round): (r: Round)
    ensures r.data == g.data && r.output == g.output && r.status == g.status
    ensures g.status != Playing ==> r == g
    ensures g.status == Playing && NextIncoming(g).None? ==>
      r.queue == g.queue && r.incomingIdx == g.incomingIdx && r.errors == g.errors + 1 && r.note == NoMoreIncoming
    ensures g.status == Playing && NextIncoming(g).Some? && |g.queue| >= g.data.capacity ==>
      r.queue == g.queue && r.incomingIdx == g.incomingIdx && r.errors == g.errors + 1 && r.note.QueueFull?
    ensures g.status == Playing && NextIncoming(g).Some? && |g.queue| < g.data.capacity ==>
      r.queue == g.queue + [g.data.incoming[g.incomingIdx]] && r.incomingIdx == g.incomingIdx + 1 &&
      r.errors == g.errors
  {
    if g.status != Playing then g
    else
      var next := NextIncoming(g);
      if next.None? then g.(errors := g.errors + 1, note := NoMoreIncoming)
      else if |g.queue| >= g.data.capacity then g.(errors := g.errors + 1, note := QueueFull(g.data.capacity))
      else g.(note := Blank, queue := g.queue + [next.value], incomingIdx := g.incomingIdx + 1)
  }

  /** dequeue: move the front of the queue to the output; a front other than the expected item loses the round. */
  function Dequeue(g: Round): (r: Round)
    ensures r.data == g.data && r.incomingIdx == g.incomingIdx
    ensures g.status != Playing ==> r == g
    ensures g.status == Playing && g.queue == [] ==>
      r.queue == [] && r.output == g.output && r.status == Playing && r.errors == g.errors + 1
    ensures g.status == Playing && g.queue != [] && ExpectedNext(g) != Some(g.queue[0]) ==>
      r.queue == g.queue && r.output == g.output && r.status == Lost && r.errors == g.errors + 1
    ensures g.status == Playing && g.queue != [] && ExpectedNext(g) == Some(g.queue[0]) ==>
      r.queue == g.queue[1..] && r.output == g.output + [g.queue[0]] && r.status == Playing &&
      r.errors == g.errors
  {
    if g.status != Playing then g
    else if g.queue == [] then g.(errors := g.errors + 1, note := QueueEmpty)
    else
      var front := g.queue[0];
      var expected := ExpectedNext(g);
      if expected != Some(front) then g.(errors := g.errors + 1, status := Lost, note := Wrong(front, expected))
      else g.(note := Blank, queue := g.queue[1..], output := g.output + [front])
  }

  /** The bonus: 5 per item never enqueued plus 8 per free queue slot. */
  function Bonus(g: Round): (b: int)
    ensures b >= 0
  {
    Max(0, (|g.data.incoming| - g.incomingIdx) * 5) + Max(0, (g.data.capacity - |g.queue|) * 8)
  }

  /** checkWinIfDone: a complete output wins, with the bonus in the message. */
  function CheckWinIfDone(g: Round): (r: Round)
    ensures !Done(g) ==> r == g
    ensures Done(g) ==> r == g.(status := Won, note := PerfectSchedule(Bonus(g)))
  {
    if !Done(g) then g else g.(status := Won, note := PerfectSchedule(Bonus(g)))
  }

  /** The check the page makes while rendering: a playing round whose output is complete is won. */
  function Settle(g: Round): (r: Round)
    ensures r.data == g.data && r.queue == g.queue && r.output == g.output && r.errors == g.errors
    ensures r.status == Won <==> g.status == Won || (g.status == Playing && Done(g))
    ensures r.status == Lost <==> g.status == Lost
  {
    if g.status == Playing && Done(g) then CheckWinIfDone(g) else g
  }

  /** The Enqueue and Dequeue buttons' enabling conditions. */
  predicate CanEnqueue(g: Round)
  {
    g.status == Playing && NextIncoming(g).Some? && |g.queue| < g.data.capacity
  }

  predicate CanDequeue(g: Round)
  {
    g.status == Playing && |g.queue| > 0
  }

  /** A round on a fresh level. */
  method NewRound(level: int, shuffleDraw: int -> real, batchDraw: int -> real) returns (g: Round)
    requires forall k :: 0.0 <= shuffleDraw(k) < 1.0
    requires forall k :: 0.0 <= batchDraw(k) < 1.0
    ensures g.data.level == Clamp(level, 1, 8) && Consistent(g)
    ensures g.incomingIdx == 0 && g.queue == [] && g.output == [] && g.status == Playing && g.errors == 0
  {
    var d := MakeLevel(level, shuffleDraw, batchDraw);
    g := Round(d, 0, [], [], Playing, 0, Blank);
  }

  /**
   * The Next Level button, enabled once the round is over: one level up (at most 8), a newly
   * generated level and a reset.
   */
  method NextLevel(g: Round, shuffleDraw: int -> real, batchDraw: int -> real) returns (r: Round)
    requires forall k :: 0.0 <= shuffleDraw(k) < 1.0
    requires forall k :: 0.0 <= batchDraw(k) < 1.0
    ensures g.status == Playing ==> r == g
    ensures g.status != Playing ==>
      r.data.level == Clamp(g.data.level + 1, 1, 8) && Consistent(r) && r.status == Playing && r.errors == 0
  {
    if g.status == Playing {
      return g;
    }
    r := NewRound(Clamp(g.data.level + 1, 1, 8), shuffleDraw, batchDraw);
  }

  // ---------------------------------------------------------------------------------------
  // Properties
  // ---------------------------------------------------------------------------------------

  /**
   * The invariant of a round: a well-formed level, the output followed by the queue is exactly
   * the prefix of the incoming items taken so far, the queue within capacity, and a win only
   * with a complete output. No round that keeps it is lost.
   */
  predicate Consistent(g: Round)
  {
    WellFormed(g.data) && g.incomingIdx <= |g.data.incoming| && |g.queue| <= g.data.capacity &&
    g.output + g.queue == g.data.incoming[..g.incomingIdx] &&
    (g.status == Won ==> Done(g)) && g.status != Lost
  }

  /** The incoming items are exactly 1..n, so every item is distinct from the others by value. */
  lemma IncomingIsOneToN(d: Level, x: int)
    requires WellFormed(d)
    ensures x in d.incoming <==> 1 <= x <= |d.incoming|
  {
    var n := |d.incoming|;
    assert x in d.incoming <==> x in multiset(d.incoming);
    assert x in Range(n) <==> x in multiset(Range(n));
    if 1 <= x <= n {
      assert Range(n)[x - 1] == x;
    }
  }

  /** The front of the queue is always the expected next item: a correct schedule cannot go wrong. */
  lemma FrontIsExpected(g: Round)
    requires Consistent(g) && g.queue != []
    ensures ExpectedNext(g) == Some(g.queue[0])
  {
    var k := |g.output|;
    assert (g.output + g.queue)[k] == g.queue[0];
    assert g.data.incoming[..g.incomingIdx][k] == g.data.incoming[k];
  }

  /**
   * The Enqueue button is enabled exactly when a press takes the next item into the queue without
   * an error; pressed while disabled in a playing round, it counts an error and moves nothing.
   */
  lemma EnqueueButton(g: Round)
    ensures CanEnqueue(g) ==>
      Enqueue(g).queue == g.queue + [NextIncoming(g).value] && Enqueue(g).incomingIdx == g.incomingIdx + 1 &&
      Enqueue(g).errors == g.errors
    ensures g.status == Playing && !CanEnqueue(g) ==>
      Enqueue(g).queue == g.queue && Enqueue(g).incomingIdx == g.incomingIdx && Enqueue(g).errors == g.errors + 1
  {
  }

  /**
   * The Dequeue button is enabled exactly when the queue has a front; in a consistent round a
   * press then delivers that front to the output without an error, and pressed while disabled in
   * a playing round it counts an error and moves nothing.
   */
  lemma DequeueButton(g: Round)
    ensures CanDequeue(g) && Consistent(g) ==>
      Dequeue(g).queue == g.queue[1..] && Dequeue(g).output == g.output + [g.queue[0]] &&
      Dequeue(g).status == Playing && Dequeue(g).errors == g.errors
    ensures g.status == Playing && !CanDequeue(g) ==>
      Dequeue(g).queue == g.queue && Dequeue(g).output == g.output && Dequeue(g).errors == g.errors + 1
  {
    if CanDequeue(g) && Consistent(g) {
      FrontIsExpected(g);
    }
  }

  /** Every handler keeps the invariant; in particular dequeue never loses. */
  lemma HandlersKeepConsistent(g: Round)
    requires Consistent(g)
    ensures Consistent(Enqueue(g)) && Consistent(Dequeue(g)) && Consistent(Settle(g)) && Consistent(HardReset(g))
    ensures g.status == Playing && g.queue != [] ==> Dequeue(g).status == Playing && Dequeue(g).errors == g.errors
  {
    var inc := g.data.incoming;
    if g.status == Playing && NextIncoming(g).Some? && |g.queue| < g.data.capacity {
      assert inc[..g.incomingIdx + 1] == inc[..g.incomingIdx] + [inc[g.incomingIdx]];
    }
    if g.status == Playing && g.queue != [] {
      FrontIsExpected(g);
      assert g.output + [g.queue[0]] + g.queue[1..] == g.output + g.queue;
    }
    assert HardReset(g).data.incoming[..0] == [];
  }

  /** A complete output means every item was taken and delivered in the target order. */
  lemma DoneMeansDelivered(g: Round)
    requires Consistent(g) && Done(g)
    ensures g.incomingIdx == |g.data.incoming| && g.queue == [] && g.output == g.data.target
  {
    assert |g.output + g.queue| == g.incomingIdx;
  }

  /** Winning leaves every item delivered, so the bonus is 8 per slot of the whole capacity. */
  lemma WinBonus(g: Round)
    requires Consistent(g) && g.status == Playing && Done(g)
    ensures Settle(g).status == Won && Settle(g).note == PerfectSchedule(8 * g.data.capacity)
  {
    DoneMeansDelivered(g);
  }

  /** Enqueue then dequeue, item by item, until all have arrived. */
  function Greedy(g: Round): (r: Round)
    requires Consistent(g) && g.queue == []
    ensures Consistent(r) && r.queue == [] && r.data == g.data
    decreases |g.data.incoming| - g.incomingIdx
  {
    if g.status != Playing || g.incomingIdx == |g.data.incoming| then g
    else
      HandlersKeepConsistent(g);
      var e := Enqueue(g);
      HandlersKeepConsistent(e);
      Greedy(Dequeue(e))
  }

  /** Every level is solvable without a single error: alternating the two buttons wins. */
  lemma {:induction false} GreedyWins(g: Round)
    requires Consistent(g) && g.queue == [] && g.status == Playing
    ensures Settle(Greedy(g)).status == Won && Greedy(g).errors == g.errors
    decreases |g.data.incoming| - g.incomingIdx
  {
    if g.incomingIdx == |g.data.incoming| {
      assert |g.output| == |g.data.incoming[..g.incomingIdx]|;
    } else {
      HandlersKeepConsistent(g);
      var e := Enqueue(g);
      assert e.queue == [g.data.incoming[g.incomingIdx]];
      HandlersKeepConsistent(e);
      GreedyWins(Dequeue(e));
    }
  }
}
