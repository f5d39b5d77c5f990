/**
 * The live event feed (components/EventFeed.jsx). Each poll merges the events already shown
 * with the newly fetched ones, keeps one event per sequence number (the later one), orders them
 * by sequence number and keeps the newest fifteen; lastSeq follows the largest sequence number
 * seen. The panel then shows the last one event, or the last `limit` when open.
 */
module EventFeed {
  import opened Wrappers
  import opened Sorting

  const MaxItems: nat := 15

  /** An event as the feed receives it; the fields only displayed (createdAt, player) are dropped. */
  datatype FeedEvent = FeedEvent(seqNo: int, eventType: string, message: string)

  /** A fetched entry may be null (`if (!e) continue`). */
  type Entry = Option<FeedEvent>

  function BySeq(): (FeedEvent, FeedEvent) -> bool
  {
    (a: FeedEvent, b: FeedEvent) => a.seqNo <= b.seqNo
  }

  // ---------------------------------------------------------------------------------------
  // De-duplication: the Map keyed by seq
  // ---------------------------------------------------------------------------------------

  /**
   * The Map after `bySeq.set(Number(e.seq), e)` for each non-null entry: the keys in first-insertion
   * order (a JavaScript Map iterates that way) and the entry stored under each key.
   */
  datatype SeqMap = SeqMap(keys: seq<int>, byKey: map<int, FeedEvent>)

  function SetEntry(m: SeqMap, e: FeedEvent): SeqMap
  {
    if e.seqNo in m.byKey then m.(byKey := m.byKey[e.seqNo := e])
    else SeqMap(m.keys + [e.seqNo], m.byKey[e.seqNo := e])
  }

  function Dedup(entries: seq<Entry>): SeqMap
  {
    if entries == [] then SeqMap([], map[])
    else
      var m := Dedup(entries[..|entries| - 1]);
      var e := entries[|entries| - 1];
      if e.None? then m else SetEntry(m, e.value)
  }

  /** The last non-null entry carrying seq k: the one the Map keeps. */
  function LastWithSeq(entries: seq<Entry>, k: int): Option<FeedEvent>
  {
    if entries == [] then None
    else
      var e := entries[|entries| - 1];
      if e.Some? && e.value.seqNo == k then e else LastWithSeq(entries[..|entries| - 1], k)
  }

  /** The sequence numbers carried by the non-null entries. */
  function SeqsOf(entries: seq<Entry>): set<int>
  {
    set i | 0 <= i < |entries| && entries[i].Some? :: entries[i].value.seqNo
  }

  ghost predicate NoDup(t: seq<int>)
  {
    forall i, j :: 0 <= i < j < |t| ==> t[i] != t[j]
  }

  /** What the Map holds: each key once, each key's event is the last entry with that seq. */
  ghost predicate Represents(m: SeqMap, entries: seq<Entry>)
  {
    NoDup(m.keys) &&
    (forall i :: 0 <= i < |m.keys| ==> m.keys[i] in m.byKey) &&
    (forall k :: k in m.byKey ==> k in m.keys) &&
    (forall k :: k in m.byKey <==> k in SeqsOf(entries)) &&
    (forall k :: k in m.byKey ==> LastWithSeq(entries, k) == Some(m.byKey[k]))
  }

  lemma {:induction false} DedupRepresents(entries: seq<Entry>)
    ensures Represents(Dedup(entries), entries)
    decreases |entries|
  {
    if entries != [] {
      var init := entries[..|entries| - 1];
      DedupRepresents(init);
      var e := entries[|entries| - 1];
      SeqsOfSnoc(entries);
      if e.None? {
        assert forall k :: LastWithSeq(entries, k) == LastWithSeq(init, k);
      } else {
        SetEntryRepresents(Dedup(init), entries);
      }
    }
  }

  /** The seqs of a list are those of all but its last entry, and the last entry's. */
  lemma SeqsOfSnoc(entries: seq<Entry>)
    requires entries != []
    ensures var init, e := entries[..|entries| - 1], entries[|entries| - 1];
      forall k :: k in SeqsOf(entries) <==> k in SeqsOf(init) || (e.Some? && k == e.value.seqNo)
  {
    var init, e := entries[..|entries| - 1], entries[|entries| - 1];
    forall k ensures k in SeqsOf(entries) <==> k in SeqsOf(init) || (e.Some? && k == e.value.seqNo) {
      if k in SeqsOf(entries) {
        var i :| 0 <= i < |entries| && entries[i].Some? && entries[i].value.seqNo == k;
        if i < |init| { assert init[i] == entries[i]; }
      }
      if k in SeqsOf(init) {
        var i :| 0 <= i < |init| && init[i].Some? && init[i].value.seqNo == k;
        assert entries[i] == init[i];
      }
    }
  }

  /** Storing a non-null last entry keeps the Map a faithful summary of the list. */
  lemma SetEntryRepresents(m: SeqMap, entries: seq<Entry>)
    requires entries != [] && entries[|entries| - 1].Some?
    requires Represents(m, entries[..|entries| - 1])
    requires var init, e := entries[..|entries| - 1], entries[|entries| - 1];
      forall k :: k in SeqsOf(entries) <==> k in SeqsOf(init) || (e.Some? && k == e.value.seqNo)
    ensures Represents(SetEntry(m, entries[|entries| - 1].value), entries)
  {
    var x := entries[|entries| - 1].value;
    var m' := SetEntry(m, x);
    assert forall k :: k != x.seqNo ==> LastWithSeq(entries, k) == LastWithSeq(entries[..|entries| - 1], k);
    if x.seqNo !in m.byKey {
      assert m'.keys == m.keys + [x.seqNo];
      assert forall i :: 0 <= i < |m.keys| ==> m'.keys[i] == m.keys[i];
    }
  }

  /** `Array.from(bySeq.values())`: the stored events in key order. */
  function ValuesOf(keys: seq<int>, byKey: map<int, FeedEvent>): (r: seq<FeedEvent>)
    requires forall i :: 0 <= i < |keys| ==> keys[i] in byKey
    ensures |r| == |keys|
    ensures forall i :: 0 <= i < |keys| ==> r[i] == byKey[keys[i]]
  {
    if keys == [] then [] else [byKey[keys[0]]] + ValuesOf(keys[1..], byKey)
  }

  /** `arr.slice(-n)` for n >= 1: the last n elements, or all of them if there are fewer. */
  function Newest<T>(s: seq<T>, n: nat): (r: seq<T>)
    ensures |r| == if |s| < n then |s| else n
  {
    if |s| <= n then s else s[|s| - n..]
  }

  /** The events a poll leaves: merged, de-duplicated, ordered by seq, newest MaxItems kept. */
  function Merged(prev: seq<Entry>, data: seq<Entry>): seq<FeedEvent>
  {
    Newest(SortBy(DedupValues(prev + data), BySeq()), MaxItems)
  }

  /** The Map's values after the de-duplicating loop, in key order. */
  function DedupValues(entries: seq<Entry>): seq<FeedEvent>
  {
    var m := Dedup(entries);
    DedupRepresents(entries);
    ValuesOf(m.keys, m.byKey)
  }

  /** The poll's merge: a loop filling the Map, then sort and slice. */
  method MergeEvents(prev: seq<Entry>, data: seq<Entry>) returns (events: seq<FeedEvent>)
    ensures events == Merged(prev, data)
  {
    var merged := prev + data;
    var keys: seq<int> := [];
    var byKey: map<int, FeedEvent> := map[];
    var i := 0;
    while i < |merged|
      invariant 0 <= i <= |merged|
      invariant SeqMap(keys, byKey) == Dedup(merged[..i])
    {
      assert merged[..i + 1][..i] == merged[..i];
      var e := merged[i];
      if e.Some? {
        if e.value.seqNo !in byKey {
          keys := keys + [e.value.seqNo];
        }
        byKey := byKey[e.value.seqNo := e.value];
      }
      i := i + 1;
    }
    assert merged[..i] == merged;
    DedupRepresents(merged);
    var arr := SortBy(ValuesOf(keys, byKey), BySeq());
    events := Newest(arr, MaxItems);
  }

  // ---------------------------------------------------------------------------------------
  // lastSeq
  // ---------------------------------------------------------------------------------------

  /** `Number(e?.seq || 0)`: a null entry counts as 0. */
  function SeqOrZero(e: Entry): int
  {
    if e.None? then 0 else e.value.seqNo
  }

  /** `data.reduce((m, e) => Math.max(m, seq of e), start)`. */
  function MaxSeq(start: int, data: seq<Entry>): (r: int)
    ensures r >= start
    ensures forall i :: 0 <= i < |data| ==> r >= SeqOrZero(data[i])
    ensures r == start || exists i :: 0 <= i < |data| && r == SeqOrZero(data[i])
  {
    if data == [] then start
    else
      var m := MaxSeq(start, data[..|data| - 1]);
      var last := SeqOrZero(data[|data| - 1]);
      var r := if m >= last then m else last;
      assert forall i :: 0 <= i < |data| - 1 ==> data[..|data| - 1][i] == data[i];
      r
  }

  // ---------------------------------------------------------------------------------------
  // The component's state
  // ---------------------------------------------------------------------------------------

  /** The feed's two pieces of React state. */
  class Feed {
    var events: seq<FeedEvent>
    var lastSeq: int

    constructor ()
      ensures events == [] && lastSeq == 0
    {
      events := [];
      lastSeq := 0;
    }

    /** loadInitial: the fetched events as they are, lastSeq the largest seq from 0. */
    method LoadInitial(data: seq<FeedEvent>)
      modifies this
      ensures events == data
      ensures lastSeq == MaxSeq(0, Present(data))
    {
      events := data;
      lastSeq := MaxSeq(0, Present(data));
    }

    /** poll: nothing happens for a missing or empty fetch; otherwise merge and raise lastSeq. */
    method Poll(data: Option<seq<Entry>>)
      modifies this
      ensures data.None? || data.value == [] ==> events == old(events) && lastSeq == old(lastSeq)
      ensures data.Some? && data.value != [] ==>
        events == Merged(Present(old(events)), data.value) && lastSeq == MaxSeq(old(lastSeq), data.value)
      ensures lastSeq >= old(lastSeq)
    {
      if data.None? || data.value == [] {
        return;
      }
      events := MergeEvents(Present(events), data.value);
      lastSeq := MaxSeq(lastSeq, data.value);
    }
  }

  /** The shown events as non-null entries. */
  function Present(s: seq<FeedEvent>): (r: seq<Entry>)
    ensures |r| == |s| && forall i :: 0 <= i < |s| ==> r[i] == Some(s[i])
  {
    if s == [] then [] else [Some(s[0])] + Present(s[1..])
  }

  // ---------------------------------------------------------------------------------------
  // What the panel shows
  // ---------------------------------------------------------------------------------------

  /**
   * `bounded = events.slice(-15)`; open shows `bounded.slice(-max(limit, 1))`, collapsed
   * `bounded.slice(-1)`.
   */
  function Shown(events: seq<FeedEvent>, open: bool, limit: int): (r: seq<FeedEvent>)
    ensures var want := if open then (if limit < 1 then 1 else if limit > MaxItems then MaxItems else limit) else 1;
      |r| == if |events| < want then |events| else want
    ensures r != [] ==> r[|r| - 1] == events[|events| - 1]
    ensures forall i :: 0 <= i < |r| ==> r[i] == events[|events| - |r| + i]
  {
    var bounded := Newest(events, MaxItems);
    var effective := if limit < 1 then 1 else limit;
    if open then Newest(bounded, effective) else Newest(bounded, 1)
  }

  // ---------------------------------------------------------------------------------------
  // extractLastNumber
  // ---------------------------------------------------------------------------------------

  predicate IsDigit(c: char) { '0' <= c <= '9' }

  /** JavaScript's `\s`: the ASCII spaces, no-break and line separators and the Unicode spaces. */
  predicate IsJsSpace(c: char)
  {
    c == ' ' || c == '\t' || c == '\n' || c == '\r' || c == '\U{000B}' || c == '\U{000C}' ||
    c == '\U{00A0}' || c == '\U{1680}' || ('\U{2000}' <= c <= '\U{200A}') || c == '\U{2028}' ||
    c == '\U{2029}' || c == '\U{202F}' || c == '\U{205F}' || c == '\U{3000}' || c == '\U{FEFF}'
  }

  /** Where the trailing whitespace of s begins. */
  function SpaceTailStart(s: string): (e: nat)
    ensures e <= |s|
    ensures forall i :: e <= i < |s| ==> IsJsSpace(s[i])
    ensures e == 0 || !IsJsSpace(s[e - 1])
  {
    if s == [] || !IsJsSpace(s[|s| - 1]) then |s| else SpaceTailStart(s[..|s| - 1])
  }

  /** Where the run of digits ending at e begins. */
  function DigitRunStart(s: string, e: nat): (k: nat)
    requires e <= |s|
    ensures k <= e
    ensures forall i :: k <= i < e ==> IsDigit(s[i])
    ensures k == 0 || !IsDigit(s[k - 1])
  {
    if e == 0 || !IsDigit(s[e - 1]) then e else DigitRunStart(s, e - 1)
  }

  /**
   * extractLastNumber: the match of `(\d+)\s*$` in `String(str || "")`, that is the whole digit
   * run standing right before the trailing whitespace, or None.
   */
  function ExtractLastNumber(str: Option<string>): (r: Option<string>)
    ensures r.Some? ==> r.value != [] && forall i :: 0 <= i < |r.value| ==> IsDigit(r.value[i])
  {
    var s := if str.None? then "" else str.value;
    var e := SpaceTailStart(s);
    var k := DigitRunStart(s, e);
    if k == e then None else Some(s[k..e])
  }

  // ---------------------------------------------------------------------------------------
  // Properties
  // ---------------------------------------------------------------------------------------

  predicate AllSpaces(s: string)
  {
    forall i :: 0 <= i < |s| ==> IsJsSpace(s[i])
  }

  predicate AllDigits(s: string)
  {
    forall i :: 0 <= i < |s| ==> IsDigit(s[i])
  }

  lemma {:induction false} SpaceTailOfPadded(body: string, pad: string)
    requires AllSpaces(pad)
    requires body == [] || !IsJsSpace(body[|body| - 1])
    ensures SpaceTailStart(body + pad) == |body|
    decreases |pad|
  {
    if pad != [] {
      assert (body + pad)[..|body + pad| - 1] == body + pad[..|pad| - 1];
      SpaceTailOfPadded(body, pad[..|pad| - 1]);
    } else {
      assert body + pad == body;
    }
  }

  lemma {:induction false} DigitRunOf(pre: string, digits: string, post: string, e: nat)
    requires AllDigits(digits) && |pre| <= e <= |pre| + |digits|
    requires pre == [] || !IsDigit(pre[|pre| - 1])
    ensures DigitRunStart(pre + digits + post, e) == |pre|
    decreases e
  {
    var s := pre + digits + post;
    if e > |pre| {
      assert s[e - 1] == digits[e - 1 - |pre|];
      DigitRunOf(pre, digits, post, e - 1);
    } else if e > 0 {
      assert s[e - 1] == pre[|pre| - 1];
    }
  }

  /**
   * The trailing number is found again: for a text ending in digits and then whitespace,
   * preceded by anything but a digit, extractLastNumber returns exactly those digits.
   */
  lemma ExtractFindsTrailingNumber(pre: string, digits: string, pad: string)
    requires digits != [] && AllDigits(digits) && AllSpaces(pad)
    requires pre == [] || !IsDigit(pre[|pre| - 1])
    ensures ExtractLastNumber(Some(pre + digits + pad)) == Some(digits)
  {
    var s := pre + digits + pad;
    var body := pre + digits;
    assert body[|body| - 1] == digits[|digits| - 1];
    assert s == body + pad;
    SpaceTailOfPadded(body, pad);
    DigitRunOf(pre, digits, pad, |body|);
    assert s[|pre|..|body|] == digits;
  }

  /** A text whose last non-space character is not a digit has no trailing number. */
  lemma NoTrailingDigitNoNumber(body: string, pad: string)
    requires AllSpaces(pad)
    requires body == [] || (!IsJsSpace(body[|body| - 1]) && !IsDigit(body[|body| - 1]))
    ensures ExtractLastNumber(Some(body + pad)) == None
  {
    SpaceTailOfPadded(body, pad);
    if body != [] {
      assert (body + pad)[|body| - 1] == body[|body| - 1];
    }
  }

  /** Strictly ascending by seq: ordered, and no seq twice. */
  ghost predicate StrictlyAscending(s: seq<FeedEvent>)
  {
    forall i, j :: 0 <= i < j < |s| ==> s[i].seqNo < s[j].seqNo
  }

  lemma {:induction false} NoDupCount(t: seq<FeedEvent>, x: FeedEvent)
    requires forall i, j :: 0 <= i < j < |t| ==> t[i].seqNo != t[j].seqNo
    ensures multiset(t)[x] <= 1
    decreases |t|
  {
    if t != [] {
      var init := t[..|t| - 1];
      var last := t[|t| - 1];
      assert t == init + [last];
      NoDupCount(init, x);
      forall k | 0 <= k < |init| ensures init[k] != last {
        assert t[k] == init[k];
      }
      assert last !in init;
    }
  }

  lemma TwiceCounts(t: seq<FeedEvent>, i: nat, j: nat)
    requires i < j < |t| && t[i] == t[j]
    ensures multiset(t)[t[i]] >= 2
  {
    assert t == t[..j] + t[j..];
    assert t[i] in t[..j];
    assert t[j] in t[j..];
  }

  /** Sorting values with distinct seqs orders them strictly. */
  lemma SortedDistinct(vals: seq<FeedEvent>)
    requires forall i, j :: 0 <= i < j < |vals| ==> vals[i].seqNo != vals[j].seqNo
    ensures StrictlyAscending(SortBy(vals, BySeq()))
  {
    var sorted := SortBy(vals, BySeq());
    SortedBySeq(vals);
    forall i, j | 0 <= i < j < |sorted| ensures sorted[i].seqNo < sorted[j].seqNo {
      DistinctPair(vals, sorted, i, j);
    }
  }

  /** Sorting by seq puts the seqs in non-decreasing order. */
  lemma SortedBySeq(vals: seq<FeedEvent>)
    ensures forall i, j :: 0 <= i < j < |SortBy(vals, BySeq())| ==>
      SortBy(vals, BySeq())[i].seqNo <= SortBy(vals, BySeq())[j].seqNo
  {
    BySeqTotal();
    SortBySorted(vals, BySeq());
    var sorted := SortBy(vals, BySeq());
    forall i, j | 0 <= i < j < |sorted| ensures sorted[i].seqNo <= sorted[j].seqNo {
      assert BySeq()(sorted[i], sorted[j]);
    }
  }

  lemma BySeqTotal()
    ensures TotalPreorder(BySeq())
  {
  }

  /** Two positions of a permutation of values with distinct seqs hold distinct seqs. */
  lemma DistinctPair(vals: seq<FeedEvent>, sorted: seq<FeedEvent>, i: nat, j: nat)
    requires forall a, b :: 0 <= a < b < |vals| ==> vals[a].seqNo != vals[b].seqNo
    requires multiset(sorted) == multiset(vals) && i < j < |sorted|
    ensures sorted[i].seqNo != sorted[j].seqNo
  {
    if sorted[i].seqNo == sorted[j].seqNo {
      assert sorted[i] in multiset(vals) && sorted[j] in multiset(vals);
      var a :| 0 <= a < |vals| && vals[a] == sorted[i];
      var b :| 0 <= b < |vals| && vals[b] == sorted[j];
      assert a == b;
      TwiceCounts(sorted, i, j);
      NoDupCount(vals, sorted[i]);
      assert false;
    }
  }

  /** The Map's values, in key order, have distinct seqs and are the last entries with them. */
  lemma ValuesOfDedup(entries: seq<Entry>)
    ensures var vals := DedupValues(entries);
      (forall i, j :: 0 <= i < j < |vals| ==> vals[i].seqNo != vals[j].seqNo) &&
      (forall i :: 0 <= i < |vals| ==> LastWithSeq(entries, vals[i].seqNo) == Some(vals[i]))
  {
    var m := Dedup(entries);
    DedupRepresents(entries);
    LastWithSeqCarries(entries);
    var vals := ValuesOf(m.keys, m.byKey);
    forall i | 0 <= i < |vals| ensures vals[i].seqNo == m.keys[i] {
      assert LastWithSeq(entries, m.keys[i]) == Some(vals[i]);
    }
  }

  /** The poll's result is ordered strictly by seq, so no seq appears twice. */
  lemma MergedAscending(prev: seq<Entry>, data: seq<Entry>)
    ensures StrictlyAscending(Merged(prev, data))
  {
    var vals := DedupValues(prev + data);
    ValuesOfDedup(prev + data);
    SortedDistinct(vals);
    SuffixAscending(SortBy(vals, BySeq()), MaxItems);
  }

  /** The newest n are the list's last elements, in the same order. */
  lemma NewestIsSuffix<T>(s: seq<T>, n: nat)
    ensures forall i :: 0 <= i < |Newest(s, n)| ==> Newest(s, n)[i] == s[|s| - |Newest(s, n)| + i]
  {
  }

  /** Keeping the newest n of a strictly ascending list keeps it strictly ascending. */
  lemma SuffixAscending(sorted: seq<FeedEvent>, n: nat)
    requires StrictlyAscending(sorted)
    ensures StrictlyAscending(Newest(sorted, n))
  {
    if |sorted| > n {
      var d := |sorted| - n;
      var r := sorted[d..];
      forall i, j | 0 <= i < j < |r| ensures r[i].seqNo < r[j].seqNo {
        assert r[i] == sorted[d + i] && r[j] == sorted[d + j];
      }
    }
  }

  /** Later entries win: each kept event is the last entry, shown then fetched, with its seq. */
  lemma MergedKeepsLast(prev: seq<Entry>, data: seq<Entry>)
    ensures forall e :: e in Merged(prev, data) ==> LastWithSeq(prev + data, e.seqNo) == Some(e)
  {
    var entries := prev + data;
    var vals := DedupValues(entries);
    ValuesOfDedup(entries);
    var sorted := SortBy(vals, BySeq());
    var r := Newest(sorted, MaxItems);
    forall e | e in r ensures LastWithSeq(entries, e.seqNo) == Some(e) {
      assert e in sorted;
      assert e in multiset(vals);
      var a :| 0 <= a < |vals| && vals[a] == e;
    }
  }

  /** LastWithSeq(entries, k) carries seq k. */
  lemma {:induction false} LastWithSeqCarries(entries: seq<Entry>)
    ensures forall k :: LastWithSeq(entries, k).Some? ==> LastWithSeq(entries, k).value.seqNo == k
    decreases |entries|
  {
    if entries != [] {
      LastWithSeqCarries(entries[..|entries| - 1]);
    }
  }

  /**
   * The newest are kept: the poll keeps min(15, number of distinct seqs) events, and any seq
   * seen but not kept is older than every kept one.
   */
  lemma MergedKeepsNewest(prev: seq<Entry>, data: seq<Entry>, k: int)
    requires k in SeqsOf(prev + data)
    requires forall e :: e in Merged(prev, data) ==> e.seqNo != k
    ensures forall e :: e in Merged(prev, data) ==> k < e.seqNo
  {
    var entries := prev + data;
    var vals := DedupValues(entries);
    var sorted := SortBy(vals, BySeq());
    var p := SeqInSorted(entries, k);
    ValuesOfDedup(entries);
    SortedDistinct(vals);
    NewestAbove(sorted, MaxItems, p);
  }

  /** The newest n hold every element from position |s| - n on. */
  lemma InNewest<T>(s: seq<T>, n: nat, p: nat)
    requires p < |s|
    ensures p >= |s| - |Newest(s, n)| ==> s[p] in Newest(s, n)
  {
    var r := Newest(s, n);
    if p >= |s| - |r| {
      NewestIsSuffix(s, n);
      assert r[p - (|s| - |r|)] == s[p];
    }
  }

  /** In a strictly ascending list, an element left out of the newest n is older than all of them. */
  lemma NewestAbove(sorted: seq<FeedEvent>, n: nat, p: nat)
    requires StrictlyAscending(sorted) && p < |sorted|
    requires forall e :: e in Newest(sorted, n) ==> e.seqNo != sorted[p].seqNo
    ensures forall e :: e in Newest(sorted, n) ==> sorted[p].seqNo < e.seqNo
  {
    var r := Newest(sorted, n);
    NewestIsSuffix(sorted, n);
    InNewest(sorted, n, p);
    assert p < |sorted| - |r|;
    forall e | e in r ensures sorted[p].seqNo < e.seqNo {
      var q :| 0 <= q < |r| && r[q] == e;
      assert sorted[|sorted| - |r| + q] == e;
    }
  }

  /** Every seq seen has a place in the sorted de-duplicated values. */
  lemma SeqInSorted(entries: seq<Entry>, k: int) returns (p: nat)
    requires k in SeqsOf(entries)
    ensures p < |SortBy(DedupValues(entries), BySeq())| && SortBy(DedupValues(entries), BySeq())[p].seqNo == k
  {
    var m := Dedup(entries);
    DedupRepresents(entries);
    LastWithSeqCarries(entries);
    var vals := ValuesOf(m.keys, m.byKey);
    var sorted := SortBy(vals, BySeq());
    var a :| 0 <= a < |m.keys| && m.keys[a] == k;
    assert vals[a].seqNo == k;
    assert vals[a] in multiset(sorted);
    p :| 0 <= p < |sorted| && sorted[p] == vals[a];
  }

  /** The number of events kept: all distinct seqs, at most 15. */
  lemma MergedSize(prev: seq<Entry>, data: seq<Entry>)
    ensures var n := |Dedup(prev + data).keys|;
      |Merged(prev, data)| == if n < MaxItems then n else MaxItems
  {
  }
}
