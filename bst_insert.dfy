/**
 * The BST Insert minigame (pages/BSTInsertPage.jsx): a binary search tree where smaller values
 * go left and equal-or-greater values go right, the balanced build of a sorted list, the search
 * for the empty child slot a new value belongs in, the layout that offers every empty slot as a
 * drop target, and the strike rules of the Check button.
 */
module BstInsert {
  import opened Wrappers

  datatype Tree = Nil | Node(left: Tree, value: int, right: Tree)

  datatype Side = L | R

  /** findInsertionSlot's answer: the parent's value and the side, both null for an empty tree. */
  datatype Slot = Slot(parentValue: Option<int>, side: Option<Side>)

  function Size(t: Tree): nat
  {
    if t.Nil? then 0 else Size(t.left) + 1 + Size(t.right)
  }

  function Inorder(t: Tree): (r: seq<int>)
    ensures |r| == Size(t)
  {
    if t.Nil? then [] else Inorder(t.left) + [t.value] + Inorder(t.right)
  }

  function Elems(t: Tree): set<int>
  {
    if t.Nil? then {} else Elems(t.left) + {t.value} + Elems(t.right)
  }

  /** The order bstInsert keeps: left subtrees hold smaller values, right subtrees the rest. */
  ghost predicate IsBst(t: Tree)
  {
    t.Nil? ||
    (IsBst(t.left) && IsBst(t.right) &&
     (forall x :: x in Elems(t.left) ==> x < t.value) &&
     (forall x :: x in Elems(t.right) ==> x >= t.value))
  }

  /** bstInsert: a smaller value descends left, an equal or greater one right, into a new leaf. */
  function Insert(t: Tree, v: int): (r: Tree)
    ensures r.Node?
    ensures Size(r) == Size(t) + 1
    ensures Elems(r) == Elems(t) + {v}
  {
    if t.Nil? then Node(Nil, v, Nil)
    else if v < t.value then Node(Insert(t.left, v), t.value, t.right)
    else Node(t.left, t.value, Insert(t.right, v))
  }

  /** height: 0 for the empty tree, one more than the taller child otherwise. */
  function Height(t: Tree): (h: nat)
    ensures h <= Size(t)
    ensures t.Node? ==> h >= 1
  {
    if t.Nil? then 0
    else
      var l := Height(t.left);
      var r := Height(t.right);
      1 + (if l >= r then l else r)
  }

  /** buildBalancedBST over sorted[lo..hi] (inclusive), the middle element (rounded down) at the root. */
  function BuildBalanced(sorted: seq<int>, lo: int, hi: int): (r: Tree)
    requires 0 <= lo && hi < |sorted| && lo <= hi + 1
    ensures Inorder(r) == sorted[lo..hi + 1]
    decreases hi - lo
  {
    if lo > hi then Nil
    else
      var mid := (lo + hi) / 2;
      var left := BuildBalanced(sorted, lo, mid - 1);
      var right := BuildBalanced(sorted, mid + 1, hi);
      assert sorted[lo..hi + 1] == sorted[lo..mid] + [sorted[mid]] + sorted[mid + 1..hi + 1];
      Node(left, sorted[mid], right)
  }

  /** cloneTree: a node-by-node copy, equal in value to the original. */
  function Clone(t: Tree): (r: Tree)
    ensures r == t
  {
    if t.Nil? then Nil else Node(Clone(t.left), t.value, Clone(t.right))
  }

  // ---------------------------------------------------------------------------------------
  // The insertion slot
  // ---------------------------------------------------------------------------------------

  /** The side one comparison sends v to at a node holding x. */
  function Direction(v: int, x: int, eqGoesLeft: bool): Side
  {
    if v < x then L else if v > x then R else if eqGoesLeft then L else R
  }

  function Child(t: Tree, s: Side): Tree
    requires t.Node?
  {
    if s == L then t.left else t.right
  }

  /** The comparisons from the root down to the empty child, as a sequence of sides. */
  function Route(t: Tree, v: int, eqGoesLeft: bool): (p: seq<Side>)
    ensures |p| == 0 <==> t.Nil?
  {
    if t.Nil? then []
    else
      var s := Direction(v, t.value, eqGoesLeft);
      [s] + Route(Child(t, s), v, eqGoesLeft)
  }

  /** The subtree at the end of a route, Nil once the route leaves the tree. */
  function At(t: Tree, p: seq<Side>): Tree
  {
    if p == [] || t.Nil? then t else At(Child(t, p[0]), p[1..])
  }

  /** The slot the comparisons end in. */
  function SlotOf(t: Tree, v: int, eqGoesLeft: bool): (r: Slot)
    ensures t.Nil? <==> r.parentValue.None?
    ensures r.side.None? <==> t.Nil?
  {
    if t.Nil? then Slot(None, None)
    else
      var s := Direction(v, t.value, eqGoesLeft);
      if Child(t, s).Nil? then Slot(Some(t.value), Some(s)) else SlotOf(Child(t, s), v, eqGoesLeft)
  }

  /** findInsertionSlot: the while loop walking down to a null child. */
  method FindInsertionSlot(root: Tree, v: int, eqGoesLeft: bool) returns (slot: Slot)
    ensures slot == SlotOf(root, v, eqGoesLeft)
  {
    var cur := root;
    var parent: Option<int> := None;
    var side: Option<Side> := None;
    while cur.Node?
      invariant cur.Node? ==> SlotOf(cur, v, eqGoesLeft) == SlotOf(root, v, eqGoesLeft)
      invariant cur.Nil? ==> Slot(parent, side) == SlotOf(root, v, eqGoesLeft)
      decreases cur
    {
      parent := Some(cur.value);
      if v < cur.value {
        side := Some(L);
        cur := cur.left;
      } else if v > cur.value {
        side := Some(R);
        cur := cur.right;
      } else {
        side := if eqGoesLeft then Some(L) else Some(R);
        cur := if eqGoesLeft then cur.left else cur.right;
      }
    }
    return Slot(parent, side);
  }

  // ---------------------------------------------------------------------------------------
  // The layout: nodes in inorder, edges, and the empty slots offered as drop targets
  // ---------------------------------------------------------------------------------------

  /** A laid-out node: its value, its inorder column and its depth (pixel positions are left out). */
  datatype LayoutNode = LayoutNode(value: int, column: nat, depth: nat)

  datatype Edge = Edge(from: int, to: int)

  datatype SlotMark = SlotMark(parent: int, side: Side)

  function WalkNodes(t: Tree, depth: nat, column: nat): (r: seq<LayoutNode>)
    ensures |r| == Size(t)
  {
    if t.Nil? then []
    else
      WalkNodes(t.left, depth + 1, column) + [LayoutNode(t.value, column + Size(t.left), depth)]
        + WalkNodes(t.right, depth + 1, column + Size(t.left) + 1)
  }

  function WalkEdges(t: Tree): seq<Edge>
  {
    if t.Nil? then []
    else
      WalkEdges(t.left) + NodeEdges(t) + WalkEdges(t.right)
  }

  function WalkSlots(t: Tree): seq<SlotMark>
  {
    if t.Nil? then []
    else
      WalkSlots(t.left) + NodeSlots(t) + WalkSlots(t.right)
  }

  /** buildLayout's accumulators: the arrays walk pushes to and the running xIndex. */
  class LayoutBuilder {
    var nodes: seq<LayoutNode>
    var edges: seq<Edge>
    var slots: seq<SlotMark>
    var xIndex: nat

    constructor ()
      ensures nodes == [] && edges == [] && slots == [] && xIndex == 0
    {
      nodes := [];
      edges := [];
      slots := [];
      xIndex := 0;
    }

    /** walk(node, depth): left subtree, the node with its edges and empty slots, right subtree. */
    method Walk(t: Tree, depth: nat)
      modifies this
      ensures nodes == old(nodes) + WalkNodes(t, depth, old(xIndex))
      ensures edges == old(edges) + WalkEdges(t)
      ensures slots == old(slots) + WalkSlots(t)
      ensures xIndex == old(xIndex) + Size(t)
      decreases t
    {
      if t.Nil? {
        assert WalkNodes(t, depth, xIndex) == [] && WalkEdges(t) == [] && WalkSlots(t) == [];
        return;
      }
      ghost var n0, e0, s0, x0 := nodes, edges, slots, xIndex;
      NodesSplit(t, depth, x0, n0);
      EdgesSplit(t, e0);
      SlotsSplit(t, s0);
      Walk(t.left, depth + 1);
      ghost var n1, e1, s1, x1 := nodes, edges, slots, xIndex;
      assert n1 == n0 + WalkNodes(t.left, depth + 1, x0) && x1 == x0 + Size(t.left);
      Visit(t, depth);
      ghost var n2, e2, s2, x2 := nodes, edges, slots, xIndex;
      assert n2 == n1 + [LayoutNode(t.value, x1, depth)] && x2 == x1 + 1;
      Walk(t.right, depth + 1);
      assert nodes == n2 + WalkNodes(t.right, depth + 1, x2);
      assert edges == e0 + WalkEdges(t.left) + NodeEdges(t) + WalkEdges(t.right);
      assert slots == s0 + WalkSlots(t.left) + NodeSlots(t) + WalkSlots(t.right);
    }

    /** The node's own step of walk: push it at the next column, then its edges and empty slots. */
    method Visit(t: Tree, depth: nat)
      requires t.Node?
      modifies this
      ensures nodes == old(nodes) + [LayoutNode(t.value, old(xIndex), depth)]
      ensures edges == old(edges) + NodeEdges(t)
      ensures slots == old(slots) + NodeSlots(t)
      ensures xIndex == old(xIndex) + 1
    {
      nodes := nodes + [LayoutNode(t.value, xIndex, depth)];
      xIndex := xIndex + 1;
      edges := edges + NodeEdges(t);
      slots := slots + NodeSlots(t);
    }
  }

  /** What walk pushes for the node itself, between its two subtrees. */
  function NodeEdges(t: Tree): seq<Edge>
    requires t.Node?
  {
    (if t.left.Node? then [Edge(t.value, t.left.value)] else [])
      + (if t.right.Node? then [Edge(t.value, t.right.value)] else [])
  }

  function NodeSlots(t: Tree): seq<SlotMark>
    requires t.Node?
  {
    (if t.left.Nil? then [SlotMark(t.value, L)] else [])
      + (if t.right.Nil? then [SlotMark(t.value, R)] else [])
  }

  /** The accumulators after a node's walk, in the shape Walk builds them. */
  lemma NodesSplit(t: Tree, depth: nat, x0: nat, n0: seq<LayoutNode>)
    requires t.Node?
    ensures n0 + WalkNodes(t, depth, x0)
         == n0 + WalkNodes(t.left, depth + 1, x0) + [LayoutNode(t.value, x0 + Size(t.left), depth)]
            + WalkNodes(t.right, depth + 1, x0 + Size(t.left) + 1)
  {
    var a, b, c := WalkNodes(t.left, depth + 1, x0), [LayoutNode(t.value, x0 + Size(t.left), depth)],
      WalkNodes(t.right, depth + 1, x0 + Size(t.left) + 1);
    assert WalkNodes(t, depth, x0) == a + b + c;
    Regroup(n0, a, b, c);
  }

  lemma EdgesSplit(t: Tree, e0: seq<Edge>)
    requires t.Node?
    ensures e0 + WalkEdges(t) == e0 + WalkEdges(t.left) + NodeEdges(t) + WalkEdges(t.right)
  {
    var a, b, c := WalkEdges(t.left), NodeEdges(t), WalkEdges(t.right);
    assert WalkEdges(t) == a + b + c;
    Regroup(e0, a, b, c);
  }

  lemma SlotsSplit(t: Tree, s0: seq<SlotMark>)
    requires t.Node?
    ensures s0 + WalkSlots(t) == s0 + WalkSlots(t.left) + NodeSlots(t) + WalkSlots(t.right)
  {
    var a, b, c := WalkSlots(t.left), NodeSlots(t), WalkSlots(t.right);
    assert WalkSlots(t) == a + b + c;
    Regroup(s0, a, b, c);
  }

  lemma Regroup<T>(p: seq<T>, a: seq<T>, b: seq<T>, c: seq<T>)
    ensures p + (a + b + c) == p + a + b + c
  {
  }

  /** buildLayout without the pixel maths: walk from the root at depth 0. */
  method BuildLayout(root: Tree) returns (nodes: seq<LayoutNode>, edges: seq<Edge>, slots: seq<SlotMark>)
    ensures nodes == WalkNodes(root, 0, 0) && edges == WalkEdges(root) && slots == WalkSlots(root)
  {
    var b := new LayoutBuilder();
    b.Walk(root, 0);
    nodes, edges, slots := b.nodes, b.edges, b.slots;
  }

  // ---------------------------------------------------------------------------------------
  // The Check button
  // ---------------------------------------------------------------------------------------

  datatype Status = Playing | Won | Lost

  /** maxStrikes: unlimited (None) on EASY, 2 on HARD, 3 otherwise. */
  function MaxStrikes(difficulty: string): (r: Option<nat>)
    ensures r.None? <==> difficulty == "EASY"
    ensures r.Some? ==> r.value >= 2
  {
    if difficulty == "EASY" then None else if difficulty == "HARD" then Some(2) else Some(3)
  }

  /** The page's round: the status, the mistakes so far and the slot the player tapped. */
  datatype Round = Round(status: Status, errors: nat, dropped: Option<SlotMark>)

  /** Whether a tapped slot is the answer (parent and side both equal). */
  predicate Matches(d: SlotMark, answer: Slot)
  {
    answer.parentValue == Some(d.parent) && answer.side == Some(d.side)
  }

  /**
   * check, reachable only while playing (the button is disabled otherwise): with no slot tapped
   * one mistake is counted; the right slot wins; a wrong slot counts a mistake and loses once
   * the count reaches maxStrikes.
   */
  function Checked(g: Round, answer: Slot, maxStrikes: Option<nat>): (r: Round)
    ensures g.status != Playing ==> r == g
    ensures g.status == Playing && g.dropped.None? ==> r == g.(errors := g.errors + 1)
    ensures g.status == Playing && g.dropped.Some? ==>
      (r.status == Won <==> Matches(g.dropped.value, answer)) &&
      (r.status == Won ==> r.errors == g.errors) &&
      (r.status != Won ==>
         r.errors == g.errors + 1 && (r.status == Lost <==> maxStrikes.Some? && g.errors + 1 >= maxStrikes.value))
  {
    if g.status != Playing then g
    else if g.dropped.None? then g.(errors := g.errors + 1)
    else if Matches(g.dropped.value, answer) then g.(status := Won)
    else
      var next := g.errors + 1;
      if maxStrikes.Some? && next >= maxStrikes.value then g.(status := Lost, errors := next)
      else g.(errors := next)
  }

  // ---------------------------------------------------------------------------------------
  // Properties
  // ---------------------------------------------------------------------------------------

  /** bstInsert keeps the search-tree order. */
  lemma {:induction false} InsertKeepsOrder(t: Tree, v: int)
    requires IsBst(t)
    ensures IsBst(Insert(t, v))
  {
    if t.Node? {
      if v < t.value {
        InsertKeepsOrder(t.left, v);
        var l := Insert(t.left, v);
        assert Insert(t, v) == Node(l, t.value, t.right);
        assert Elems(l) == Elems(t.left) + {v};
      } else {
        InsertKeepsOrder(t.right, v);
        var r := Insert(t.right, v);
        assert Insert(t, v) == Node(t.left, t.value, r);
        assert Elems(r) == Elems(t.right) + {v};
      }
    }
  }

  /** bstInsert adds exactly one occurrence of the value and keeps every other one. */
  lemma {:induction false} InsertAddsOne(t: Tree, v: int)
    ensures multiset(Inorder(Insert(t, v))) == multiset(Inorder(t)) + multiset{v}
  {
    if t.Node? {
      if v < t.value {
        InsertAddsOne(t.left, v);
        assert Inorder(Insert(t, v)) == Inorder(Insert(t.left, v)) + [t.value] + Inorder(t.right);
      } else {
        InsertAddsOne(t.right, v);
        assert Inorder(Insert(t, v)) == Inorder(t.left) + [t.value] + Inorder(Insert(t.right, v));
      }
    }
  }

  /** Inserting grows the height by at most one and never shrinks it. */
  lemma {:induction false} InsertHeight(t: Tree, v: int)
    ensures Height(t) <= Height(Insert(t, v)) <= Height(t) + 1
  {
    if t.Node? {
      if v < t.value {
        InsertHeight(t.left, v);
      } else {
        InsertHeight(t.right, v);
      }
    }
  }

  ghost predicate StrictlySorted(s: seq<int>)
  {
    forall i, j :: 0 <= i < j < |s| ==> s[i] < s[j]
  }

  lemma {:induction false} ElemsAreInorder(t: Tree)
    ensures Elems(t) == set x | x in Inorder(t)
  {
    if t.Node? {
      ElemsAreInorder(t.left);
      ElemsAreInorder(t.right);
    }
  }

  lemma ElemsBounded(t: Tree, bound: int, below: bool)
    requires forall i :: 0 <= i < |Inorder(t)| ==> if below then Inorder(t)[i] < bound else Inorder(t)[i] > bound
    ensures forall x :: x in Elems(t) ==> if below then x < bound else x > bound
  {
    ElemsAreInorder(t);
  }

  /** A balanced build of a strictly sorted list is a search tree. */
  lemma {:induction false} BalancedIsBst(sorted: seq<int>, lo: int, hi: int)
    requires 0 <= lo && hi < |sorted| && lo <= hi + 1
    requires StrictlySorted(sorted)
    ensures IsBst(BuildBalanced(sorted, lo, hi))
    decreases hi - lo
  {
    if lo <= hi {
      var mid := (lo + hi) / 2;
      var t := BuildBalanced(sorted, lo, hi);
      BalancedIsBst(sorted, lo, mid - 1);
      BalancedIsBst(sorted, mid + 1, hi);
      ElemsBounded(t.left, sorted[mid], true);
      ElemsBounded(t.right, sorted[mid], false);
    }
  }

  /** The route ends at an empty child: the slot is free in the tree. */
  lemma {:induction false} RouteEndsEmpty(t: Tree, v: int, eqGoesLeft: bool)
    ensures At(t, Route(t, v, eqGoesLeft)).Nil?
  {
    if t.Node? {
      var s := Direction(v, t.value, eqGoesLeft);
      RouteEndsEmpty(Child(t, s), v, eqGoesLeft);
      var p := Route(t, v, eqGoesLeft);
      assert p[0] == s && p[1..] == Route(Child(t, s), v, eqGoesLeft);
    }
  }

  /**
   * The slot names the end of the route: its parent is the node one step before the empty
   * child and its side is the last step.
   */
  lemma {:induction false} SlotIsRouteEnd(t: Tree, v: int, eqGoesLeft: bool)
    requires t.Node?
    ensures var p := Route(t, v, eqGoesLeft);
      var parent := At(t, p[..|p| - 1]);
      parent.Node? && SlotOf(t, v, eqGoesLeft) == Slot(Some(parent.value), Some(p[|p| - 1]))
  {
    var s := Direction(v, t.value, eqGoesLeft);
    var c := Child(t, s);
    var p := Route(t, v, eqGoesLeft);
    assert p[0] == s && p[1..] == Route(c, v, eqGoesLeft);
    if c.Nil? {
      assert p == [s];
    } else {
      SlotIsRouteEnd(c, v, eqGoesLeft);
      var q := Route(c, v, eqGoesLeft);
      assert p[..|p| - 1] == [s] + q[..|q| - 1];
      assert ([s] + q[..|q| - 1])[1..] == q[..|q| - 1];
    }
  }

  /**
   * With equal values going right, the slot is where bstInsert puts the value: following the
   * route in the tree after insertion reaches a new leaf holding it.
   */
  lemma {:induction false} InsertFillsSlot(t: Tree, v: int)
    ensures At(Insert(t, v), Route(t, v, false)) == Node(Nil, v, Nil)
  {
    if t.Node? {
      var s := Direction(v, t.value, false);
      InsertFillsSlot(Child(t, s), v);
      var p := Route(t, v, false);
      assert p[0] == s && p[1..] == Route(Child(t, s), v, false);
      assert Child(Insert(t, v), s) == Insert(Child(t, s), v);
    }
  }

  /** Equal values go to the eqGoesLeft side when the slot's parent holds the value. */
  lemma {:induction false} EqualGoesConfiguredSide(t: Tree, v: int, eqGoesLeft: bool)
    requires SlotOf(t, v, eqGoesLeft).parentValue == Some(v)
    ensures SlotOf(t, v, eqGoesLeft).side == Some(if eqGoesLeft then L else R)
  {
    var s := Direction(v, t.value, eqGoesLeft);
    if Child(t, s).Node? {
      EqualGoesConfiguredSide(Child(t, s), v, eqGoesLeft);
    }
  }

  /** The layout lists the values in inorder, one column each, left to right. */
  lemma {:induction false} LayoutIsInorder(t: Tree, depth: nat, column: nat)
    ensures var ns := WalkNodes(t, depth, column);
      forall i :: 0 <= i < |ns| ==> ns[i].value == Inorder(t)[i] && ns[i].column == column + i
  {
    if t.Node? {
      LayoutIsInorder(t.left, depth + 1, column);
      LayoutIsInorder(t.right, depth + 1, column + Size(t.left) + 1);
      var ln := WalkNodes(t.left, depth + 1, column);
      var rn := WalkNodes(t.right, depth + 1, column + Size(t.left) + 1);
      var ns := WalkNodes(t, depth, column);
      var k := Size(t.left);
      forall i | 0 <= i < |ns| ensures ns[i].value == Inorder(t)[i] && ns[i].column == column + i {
        if i < k {
          assert ns[i] == ln[i] && Inorder(t)[i] == Inorder(t.left)[i];
        } else if i > k {
          assert ns[i] == rn[i - k - 1] && Inorder(t)[i] == Inorder(t.right)[i - k - 1];
        }
      }
    }
  }

  /** A tree of k nodes has k - 1 edges and k + 1 empty slots. */
  lemma {:induction false} LayoutCounts(t: Tree)
    ensures t.Node? ==> |WalkEdges(t)| == Size(t) - 1
    ensures |WalkSlots(t)| == Size(t) + 1 || t.Nil?
  {
    if t.Node? {
      LayoutCounts(t.left);
      LayoutCounts(t.right);
    }
  }

  /** The answer is always on offer: the slot findInsertionSlot returns is one of the drop targets. */
  lemma {:induction false} AnswerIsOffered(t: Tree, v: int, eqGoesLeft: bool)
    requires t.Node?
    ensures var a := SlotOf(t, v, eqGoesLeft); SlotMark(a.parentValue.value, a.side.value) in WalkSlots(t)
  {
    var s := Direction(v, t.value, eqGoesLeft);
    var c := Child(t, s);
    if c.Node? {
      AnswerIsOffered(c, v, eqGoesLeft);
    }
  }

  /** On EASY the round is never lost, however many mistakes. */
  lemma EasyNeverLost(g: Round, answer: Slot)
    requires g.status != Lost
    ensures Checked(g, answer, MaxStrikes("EASY")).status != Lost
  {
  }

  /** Tapping the answer and checking wins, without a mistake. */
  lemma RightSlotWins(g: Round, t: Tree, v: int, eqGoesLeft: bool, maxStrikes: Option<nat>)
    requires g.status == Playing && t.Node?
    ensures var a := SlotOf(t, v, eqGoesLeft);
      Checked(g.(dropped := Some(SlotMark(a.parentValue.value, a.side.value))), a, maxStrikes)
        == g.(dropped := Some(SlotMark(a.parentValue.value, a.side.value)), status := Won)
  {
  }
}
