/**
 * Board validation, graph construction and fork options (BoardGraphService.java).
 * The definition is the in-memory node and edge list the JSON reader would produce;
 * a missing JSON field is None.
 */
module BoardGraphService {
  import opened Wrappers
  import opened JavaStrings
  import opened BoardGraphs
  import Sorting

  datatype NodeDef = NodeDef(id: Option<string>, nodeType: Option<BoardNodeType>)
  datatype EdgeDef = EdgeDef(from: Option<string>, to: Option<string>)
  datatype BoardDefinition = BoardDefinition(nodes: Option<seq<NodeDef>>, edges: Option<seq<EdgeDef>>)

  /** The IllegalStateException messages of validate. */
  datatype BoardError =
    | DefinitionEmpty
    | NodesMissing
    | EdgesMissing
    | NodeIdMissing
    | NodeTypeMissing(id: string)
    | DuplicateNodeId(id: string)
    | StartCount(count: nat)
    | FinishCount(count: nat)
    | EdgeFromMissing
    | EdgeToMissing
    | EdgeFromUnknown(from: string)
    | EdgeToUnknown(to: string)

  datatype ForkOption = ForkOption(to: string, labelText: string)

  const TakeShortcut := "Take shortcut"
  const GoStraight := "Go straight"
  const ChoosePath := "Choose path"

  /** The hard-coded fork labels of the physical board: fork -> straight target, fork -> shortcut target. */
  const StraightTarget: map<string, string> := map["n12" := "n13", "n21" := "n20", "n48" := "n49", "n59" := "n58"]
  const ShortcutTarget: map<string, string> := map["n12" := "n16", "n21" := "n35", "n48" := "n52", "n59" := "n69"]

  // ---------------------------------------------------------------------------------------------
  // What a valid definition is, stated declaratively

  function NodeIds(nodes: seq<NodeDef>): set<string>
  {
    set i | 0 <= i < |nodes| && nodes[i].id.Some? :: nodes[i].id.value
  }

  function CountOfType(nodes: seq<NodeDef>, t: BoardNodeType): nat
  {
    if nodes == [] then 0
    else (if nodes[0].nodeType == Some(t) then 1 else 0) + CountOfType(nodes[1..], t)
  }

  ghost predicate ProperNodes(nodes: seq<NodeDef>)
  {
    (forall i :: 0 <= i < |nodes| ==> !IsNullOrBlank(nodes[i].id) && nodes[i].nodeType.Some?) &&
    (forall i, j :: 0 <= i < j < |nodes| ==> nodes[i].id != nodes[j].id)
  }

  ghost predicate ProperEdges(edges: seq<EdgeDef>, ids: set<string>)
  {
    forall k :: 0 <= k < |edges| ==>
      !IsNullOrBlank(edges[k].from) && !IsNullOrBlank(edges[k].to) &&
      edges[k].from.value in ids && edges[k].to.value in ids
  }

  ghost predicate WellFormed(def: Option<BoardDefinition>)
  {
    def.Some? &&
    def.value.nodes.Some? && |def.value.nodes.value| > 0 &&
    def.value.edges.Some? && |def.value.edges.value| > 0 &&
    ProperNodes(def.value.nodes.value) &&
    CountOfType(def.value.nodes.value, Start) == 1 &&
    CountOfType(def.value.nodes.value, Finish) == 1 &&
    ProperEdges(def.value.edges.value, NodeIds(def.value.nodes.value))
  }

  // ---------------------------------------------------------------------------------------------
  // validate: the first failing check, in the order the source performs them

  function FirstNodeError(nodes: seq<NodeDef>, seen: set<string>): Option<BoardError>
  {
    if nodes == [] then None
    else
      var n := nodes[0];
      if IsNullOrBlank(n.id) then Some(NodeIdMissing)
      else if n.nodeType.None? then Some(NodeTypeMissing(n.id.value))
      else if n.id.value in seen then Some(DuplicateNodeId(n.id.value))
      else FirstNodeError(nodes[1..], seen + {n.id.value})
  }

  function FirstEdgeError(edges: seq<EdgeDef>, ids: set<string>): Option<BoardError>
  {
    if edges == [] then None
    else
      var e := edges[0];
      if IsNullOrBlank(e.from) then Some(EdgeFromMissing)
      else if IsNullOrBlank(e.to) then Some(EdgeToMissing)
      else if e.from.value !in ids then Some(EdgeFromUnknown(e.from.value))
      else if e.to.value !in ids then Some(EdgeToUnknown(e.to.value))
      else FirstEdgeError(edges[1..], ids)
  }

  function ValidationError(def: Option<BoardDefinition>): Option<BoardError>
  {
    if def.None? then Some(DefinitionEmpty)
    else if def.value.nodes.None? || |def.value.nodes.value| == 0 then Some(NodesMissing)
    else if def.value.edges.None? || |def.value.edges.value| == 0 then Some(EdgesMissing)
    else
      var nodes := def.value.nodes.value;
      var nodeError := FirstNodeError(nodes, {});
      if nodeError.Some? then nodeError
      else if CountOfType(nodes, Start) != 1 then Some(StartCount(CountOfType(nodes, Start)))
      else if CountOfType(nodes, Finish) != 1 then Some(FinishCount(CountOfType(nodes, Finish)))
      else FirstEdgeError(def.value.edges.value, NodeIds(nodes))
  }

  lemma {:induction false} FirstNodeErrorNone(nodes: seq<NodeDef>, seen: set<string>)
    ensures FirstNodeError(nodes, seen).None? <==>
            ProperNodes(nodes) && (forall i :: 0 <= i < |nodes| ==> nodes[i].id.value !in seen)
    decreases |nodes|
  {
    if nodes != [] {
      var n := nodes[0];
      if !IsNullOrBlank(n.id) && n.nodeType.Some? && n.id.value !in seen {
        FirstNodeErrorNone(nodes[1..], seen + {n.id.value});
        if ProperNodes(nodes) && (forall i :: 0 <= i < |nodes| ==> nodes[i].id.value !in seen) {
          forall i | 0 <= i < |nodes[1..]| ensures nodes[1..][i].id.value !in seen + {n.id.value} {
            assert nodes[1..][i] == nodes[i + 1];
            assert nodes[0].id != nodes[i + 1].id;
          }
        }
        if FirstNodeError(nodes[1..], seen + {n.id.value}).None? {
          forall i, j | 0 <= i < j < |nodes| ensures nodes[i].id != nodes[j].id {
            if i > 0 { assert nodes[1..][i - 1] == nodes[i] && nodes[1..][j - 1] == nodes[j]; }
            else { assert nodes[1..][j - 1] == nodes[j]; }
          }
          forall i | 0 <= i < |nodes| ensures !IsNullOrBlank(nodes[i].id) && nodes[i].nodeType.Some? {
            if i > 0 { assert nodes[1..][i - 1] == nodes[i]; }
          }
          forall i | 0 <= i < |nodes| ensures nodes[i].id.value !in seen {
            if i > 0 { assert nodes[1..][i - 1] == nodes[i]; }
          }
        }
      }
    }
  }

  lemma {:induction false} FirstEdgeErrorNone(edges: seq<EdgeDef>, ids: set<string>)
    ensures FirstEdgeError(edges, ids).None? <==> ProperEdges(edges, ids)
    decreases |edges|
  {
    if edges != [] {
      FirstEdgeErrorNone(edges[1..], ids);
      if ProperEdges(edges[1..], ids) {
        forall k | 1 <= k < |edges|
          ensures !IsNullOrBlank(edges[k].from) && !IsNullOrBlank(edges[k].to) &&
                  edges[k].from.value in ids && edges[k].to.value in ids
        {
          assert edges[1..][k - 1] == edges[k];
        }
      }
      if ProperEdges(edges, ids) {
        forall k | 0 <= k < |edges[1..]|
          ensures !IsNullOrBlank(edges[1..][k].from) && !IsNullOrBlank(edges[1..][k].to) &&
                  edges[1..][k].from.value in ids && edges[1..][k].to.value in ids
        {
          assert edges[1..][k] == edges[k + 1];
        }
      }
    }
  }

  /** validate throws exactly when the definition is not well formed. */
  lemma ValidationErrorIffIllFormed(def: Option<BoardDefinition>)
    ensures ValidationError(def).None? <==> WellFormed(def)
  {
    if def.Some? && def.value.nodes.Some? && def.value.edges.Some? {
      FirstNodeErrorNone(def.value.nodes.value, {});
      FirstEdgeErrorNone(def.value.edges.value, NodeIds(def.value.nodes.value));
    }
  }

  /** validate, with its node loop over a HashMap of ids and its edge loop. */
  method Validate(def: Option<BoardDefinition>) returns (error: Option<BoardError>)
    ensures error == ValidationError(def)
    ensures error.None? <==> WellFormed(def)
  {
    ValidationErrorIffIllFormed(def);
    if def.None? { return Some(DefinitionEmpty); }
    if def.value.nodes.None? || |def.value.nodes.value| == 0 { return Some(NodesMissing); }
    if def.value.edges.None? || |def.value.edges.value| == 0 { return Some(EdgesMissing); }
    var nodes, edges := def.value.nodes.value, def.value.edges.value;

    var byId: map<string, NodeDef> := map[];
    var i := 0;
    assert nodes[i..] == nodes && nodes[..i] == [] && byId.Keys == {};
    while i < |nodes|
      invariant 0 <= i <= |nodes|
      invariant FirstNodeError(nodes, {}) == FirstNodeError(nodes[i..], byId.Keys)
      invariant byId.Keys == NodeIds(nodes[..i])
    {
      var n := nodes[i];
      assert nodes[i..] == [n] + nodes[i + 1..];
      assert ([n] + nodes[i + 1..])[1..] == nodes[i + 1..];
      if IsNullOrBlank(n.id) { return Some(NodeIdMissing); }
      if n.nodeType.None? { return Some(NodeTypeMissing(n.id.value)); }
      if n.id.value in byId { return Some(DuplicateNodeId(n.id.value)); }
      ghost var keys := byId.Keys;
      byId := byId[n.id.value := n];
      assert byId.Keys == keys + {n.id.value};
      assert nodes[..i + 1] == nodes[..i] + [n];
      NodeIdsAppend(nodes[..i], n);
      i := i + 1;
    }
    assert nodes[..i] == nodes;

    var startCount, finishCount := CountOfType(nodes, Start), CountOfType(nodes, Finish);
    if startCount != 1 { return Some(StartCount(startCount)); }
    if finishCount != 1 { return Some(FinishCount(finishCount)); }

    var k := 0;
    assert edges[k..] == edges;
    while k < |edges|
      invariant 0 <= k <= |edges|
      invariant FirstEdgeError(edges, byId.Keys) == FirstEdgeError(edges[k..], byId.Keys)
    {
      var e := edges[k];
      assert edges[k..] == [e] + edges[k + 1..];
      assert ([e] + edges[k + 1..])[1..] == edges[k + 1..];
      if IsNullOrBlank(e.from) { return Some(EdgeFromMissing); }
      if IsNullOrBlank(e.to) { return Some(EdgeToMissing); }
      if e.from.value !in byId { return Some(EdgeFromUnknown(e.from.value)); }
      if e.to.value !in byId { return Some(EdgeToUnknown(e.to.value)); }
      k := k + 1;
    }
    return None;
  }

  lemma NodeIdsAppend(nodes: seq<NodeDef>, n: NodeDef)
    requires n.id.Some?
    ensures NodeIds(nodes + [n]) == NodeIds(nodes) + {n.id.value}
  {
    var all := nodes + [n];
    forall x | x in NodeIds(all) ensures x in NodeIds(nodes) + {n.id.value} {
      var i :| 0 <= i < |all| && all[i].id.Some? && all[i].id.value == x;
      if i < |nodes| { assert all[i] == nodes[i]; }
    }
    forall x | x in NodeIds(nodes) ensures x in NodeIds(all) {
      var i :| 0 <= i < |nodes| && nodes[i].id.Some? && nodes[i].id.value == x;
      assert all[i] == nodes[i];
    }
    assert all[|nodes|] == n;
  }

  // ---------------------------------------------------------------------------------------------
  // Graph construction (loadFromJson without the JSON read)

  /** The `to` of every edge leaving `from`, in declaration order. */
  function TargetsFrom(edges: seq<EdgeDef>, from: string): seq<string>
    requires forall k :: 0 <= k < |edges| ==> edges[k].to.Some?
  {
    if edges == [] then []
    else (if edges[0].from == Some(from) then [edges[0].to.value] else []) + TargetsFrom(edges[1..], from)
  }

  /** One step of the edge loop: computeIfAbsent(from, new list).add(to). */
  function AddEdge(m: map<string, seq<string>>, e: EdgeDef): map<string, seq<string>>
    requires e.from.Some? && e.to.Some?
  {
    m[e.from.value := (if e.from.value in m then m[e.from.value] else []) + [e.to.value]]
  }

  /** The adjacency map the edge loop has built after the given edges. */
  function OutgoingMap(edges: seq<EdgeDef>): map<string, seq<string>>
    requires forall k :: 0 <= k < |edges| ==> edges[k].from.Some? && edges[k].to.Some?
  {
    if edges == [] then map[] else AddEdge(OutgoingMap(edges[..|edges| - 1]), edges[|edges| - 1])
  }

  /** One step of the node loop: put(id, type). */
  function TypesOf(nodes: seq<NodeDef>): map<string, BoardNodeType>
    requires forall i :: 0 <= i < |nodes| ==> nodes[i].id.Some? && nodes[i].nodeType.Some?
  {
    if nodes == [] then map[]
    else
      var n := nodes[|nodes| - 1];
      TypesOf(nodes[..|nodes| - 1])[n.id.value := n.nodeType.value]
  }

  /** stream().filter(type == t).map(id).findFirst() */
  function FirstIdOfType(nodes: seq<NodeDef>, t: BoardNodeType): Option<string>
    requires forall i :: 0 <= i < |nodes| ==> nodes[i].id.Some?
  {
    if nodes == [] then None
    else if nodes[0].nodeType == Some(t) then nodes[0].id
    else FirstIdOfType(nodes[1..], t)
  }

  lemma {:induction false} FirstIdOfTypeFound(nodes: seq<NodeDef>, t: BoardNodeType)
    requires forall i :: 0 <= i < |nodes| ==> nodes[i].id.Some?
    ensures FirstIdOfType(nodes, t).Some? <==> CountOfType(nodes, t) > 0
    ensures FirstIdOfType(nodes, t).Some? ==>
      exists i :: 0 <= i < |nodes| && nodes[i].nodeType == Some(t) && nodes[i].id == FirstIdOfType(nodes, t) &&
        forall k :: 0 <= k < i ==> nodes[k].nodeType != Some(t)
    ensures CountOfType(nodes, t) == 0 <==> forall i :: 0 <= i < |nodes| ==> nodes[i].nodeType != Some(t)
    decreases |nodes|
  {
    if nodes != [] {
      FirstIdOfTypeFound(nodes[1..], t);
      if nodes[0].nodeType != Some(t) && FirstIdOfType(nodes, t).Some? {
        var i :| 0 <= i < |nodes[1..]| && nodes[1..][i].nodeType == Some(t) && nodes[1..][i].id == FirstIdOfType(nodes, t) &&
          forall k :: 0 <= k < i ==> nodes[1..][k].nodeType != Some(t);
        assert nodes[i + 1] == nodes[1..][i];
        forall k | 0 <= k < i + 1 ensures nodes[k].nodeType != Some(t) {
          if k > 0 { assert nodes[k] == nodes[1..][k - 1]; }
        }
      }
      if forall i :: 0 <= i < |nodes[1..]| ==> nodes[1..][i].nodeType != Some(t) {
        forall i | 1 <= i < |nodes| ensures nodes[i].nodeType != Some(t) { assert nodes[i] == nodes[1..][i - 1]; }
      }
    }
  }

  ghost function BuildGraph(def: BoardDefinition): BoardGraph
    requires WellFormed(Some(def))
  {
    var nodes, edges := def.nodes.value, def.edges.value;
    FirstIdOfTypeFound(nodes, Start);
    FirstIdOfTypeFound(nodes, Finish);
    BoardGraph(TypesOf(nodes), OutgoingMap(edges),
               FirstIdOfType(nodes, Start).value, FirstIdOfType(nodes, Finish).value,
               FirstIdOfType(nodes, Jail))
  }

  /** loadFromJson after the read: validate, then fill the two maps and find start, finish and jail. */
  method LoadGraph(def: Option<BoardDefinition>) returns (r: Result<BoardGraph, BoardError>)
    ensures ValidationError(def).Some? ==> r == Err(ValidationError(def).value)
    ensures ValidationError(def).None? ==> WellFormed(def) && r == Ok(BuildGraph(def.value))
  {
    var error := Validate(def);
    if error.Some? { return Err(error.value); }
    var nodes, edges := def.value.nodes.value, def.value.edges.value;

    var nodeTypeById: map<string, BoardNodeType> := map[];
    var i := 0;
    while i < |nodes|
      invariant 0 <= i <= |nodes|
      invariant nodeTypeById == TypesOf(nodes[..i])
    {
      assert nodes[..i + 1][..i] == nodes[..i];
      nodeTypeById := nodeTypeById[nodes[i].id.value := nodes[i].nodeType.value];
      i := i + 1;
    }
    assert nodes[..i] == nodes;

    var outgoingById: map<string, seq<string>> := map[];
    var k := 0;
    while k < |edges|
      invariant 0 <= k <= |edges|
      invariant outgoingById == OutgoingMap(edges[..k])
    {
      assert edges[..k + 1][..k] == edges[..k];
      var e := edges[k];
      var list := if e.from.value in outgoingById then outgoingById[e.from.value] else [];
      outgoingById := outgoingById[e.from.value := list + [e.to.value]];
      k := k + 1;
    }
    assert edges[..k] == edges;

    FirstIdOfTypeFound(nodes, Start);
    FirstIdOfTypeFound(nodes, Finish);
    var start := FirstIdOfType(nodes, Start).value;
    var finish := FirstIdOfType(nodes, Finish).value;
    var jail := FirstIdOfType(nodes, Jail);
    return Ok(BoardGraph(nodeTypeById, outgoingById, start, finish, jail));
  }

  // ---------------------------------------------------------------------------------------------
  // What the built graph answers

  lemma {:induction false} TargetsFromAppend(edges: seq<EdgeDef>, e: EdgeDef, from: string)
    requires forall k :: 0 <= k < |edges| ==> edges[k].to.Some?
    requires e.to.Some?
    ensures TargetsFrom(edges + [e], from) == TargetsFrom(edges, from) + (if e.from == Some(from) then [e.to.value] else [])
    decreases |edges|
  {
    if edges == [] {
      assert edges + [e] == [e];
    } else {
      assert (edges + [e])[1..] == edges[1..] + [e];
      TargetsFromAppend(edges[1..], e, from);
    }
  }

  lemma {:induction false} OutgoingMapLists(edges: seq<EdgeDef>, from: string)
    requires forall k :: 0 <= k < |edges| ==> edges[k].from.Some? && edges[k].to.Some?
    ensures (if from in OutgoingMap(edges) then OutgoingMap(edges)[from] else []) == TargetsFrom(edges, from)
    decreases |edges|
  {
    if edges != [] {
      var init, e := edges[..|edges| - 1], edges[|edges| - 1];
      OutgoingMapLists(init, from);
      assert edges == init + [e];
      TargetsFromAppend(init, e, from);
    }
  }

  /** outgoing(n) of the loaded graph lists the targets of the edges from n in declaration order; [] when there are none. */
  lemma LoadedOutgoing(def: BoardDefinition, from: string)
    requires WellFormed(Some(def))
    ensures BuildGraph(def).Outgoing(from) == TargetsFrom(def.edges.value, from)
  {
    OutgoingMapLists(def.edges.value, from);
  }

  lemma {:induction false} TypesOfLookup(nodes: seq<NodeDef>, id: string)
    requires forall i :: 0 <= i < |nodes| ==> nodes[i].id.Some? && nodes[i].nodeType.Some?
    requires forall i, j :: 0 <= i < j < |nodes| ==> nodes[i].id != nodes[j].id
    ensures id in TypesOf(nodes) <==> exists i :: 0 <= i < |nodes| && nodes[i].id == Some(id)
    ensures forall i :: 0 <= i < |nodes| && nodes[i].id == Some(id) ==> TypesOf(nodes)[id] == nodes[i].nodeType.value
    decreases |nodes|
  {
    if nodes != [] {
      var init := nodes[..|nodes| - 1];
      TypesOfLookup(init, id);
      forall i | 0 <= i < |nodes| && nodes[i].id == Some(id) ensures TypesOf(nodes)[id] == nodes[i].nodeType.value {
        if i < |nodes| - 1 { assert init[i] == nodes[i]; }
      }
      if exists i :: 0 <= i < |nodes| && nodes[i].id == Some(id) {
        var i :| 0 <= i < |nodes| && nodes[i].id == Some(id);
        if i < |nodes| - 1 { assert init[i] == nodes[i]; }
      }
      if exists i :: 0 <= i < |init| && init[i].id == Some(id) {
        var i :| 0 <= i < |init| && init[i].id == Some(id);
        assert nodes[i] == init[i];
      }
    }
  }

  /** getType of the loaded graph: the declared type of the node with that id; null for an unknown id. */
  lemma LoadedType(def: BoardDefinition, id: string, t: BoardNodeType)
    requires WellFormed(Some(def))
    ensures BuildGraph(def).GetType(id) == Some(t) <==>
            exists i :: 0 <= i < |def.nodes.value| && def.nodes.value[i] == NodeDef(Some(id), Some(t))
    ensures BuildGraph(def).GetType(id).None? <==> id !in NodeIds(def.nodes.value)
  {
    var nodes := def.nodes.value;
    TypesOfLookup(nodes, id);
    if id in NodeIds(nodes) {
      var i :| 0 <= i < |nodes| && nodes[i].id.Some? && nodes[i].id.value == id;
    }
  }

  /** The start and finish ids name the one START and the one FINISH node; the jail is the first JAIL node, if any. */
  lemma LoadedSpecialNodes(def: BoardDefinition)
    requires WellFormed(Some(def))
    ensures exists i :: 0 <= i < |def.nodes.value| && def.nodes.value[i] == NodeDef(Some(BuildGraph(def).startNodeId), Some(Start))
    ensures exists i :: 0 <= i < |def.nodes.value| && def.nodes.value[i] == NodeDef(Some(BuildGraph(def).finishNodeId), Some(Finish))
    ensures BuildGraph(def).jailNodeId.None? <==> forall i :: 0 <= i < |def.nodes.value| ==> def.nodes.value[i].nodeType != Some(Jail)
    ensures BuildGraph(def).jailNodeId.Some? ==>
      exists i :: 0 <= i < |def.nodes.value| && def.nodes.value[i] == NodeDef(BuildGraph(def).jailNodeId, Some(Jail)) &&
        forall k :: 0 <= k < i ==> def.nodes.value[k].nodeType != Some(Jail)
  {
    var nodes := def.nodes.value;
    FirstIdOfTypeFound(nodes, Start);
    FirstIdOfTypeFound(nodes, Finish);
    FirstIdOfTypeFound(nodes, Jail);
  }

  // ---------------------------------------------------------------------------------------------
  // getForkOptions

  predicate IsShortcut(o: ForkOption) { o.labelText == TakeShortcut }

  /** The comparator of the sort call, as "a sorts no later than b". */
  predicate OptionLe(a: ForkOption, b: ForkOption)
  {
    if IsShortcut(a) && !IsShortcut(b) then true
    else if !IsShortcut(a) && IsShortcut(b) then false
    else !StrLess(b.to, a.to)
  }

  lemma OptionLePreorder()
    ensures Sorting.TotalPreorder(OptionLe)
  {
    forall a, b ensures OptionLe(a, b) || OptionLe(b, a) {
      StrLessAsymmetric(a.to, b.to);
    }
    forall a, b, c | OptionLe(a, b) && OptionLe(b, c) ensures OptionLe(a, c) {
      if IsShortcut(a) == IsShortcut(c) && StrLess(c.to, a.to) {
        // the three share one shortcut class, so a.to <= b.to <= c.to
        if b.to != a.to { StrLessTotal(a.to, b.to); }
        if c.to != b.to { StrLessTotal(b.to, c.to); }
        if a.to != b.to && b.to != c.to { StrLessTransitive(a.to, b.to, c.to); StrLessTransitive(c.to, a.to, b.to); }
        else if a.to == b.to { StrLessIrreflexive(c.to); } else { StrLessIrreflexive(a.to); }
      }
    }
  }

  lemma StrLessAsymmetric(a: string, b: string)
    ensures !(StrLess(a, b) && StrLess(b, a))
  {
    if StrLess(a, b) && StrLess(b, a) {
      StrLessTransitive(a, b, a);
      StrLessIrreflexive(a);
    }
  }

  function LabelFor(shortcutTo: Option<string>, straightTo: Option<string>, to: string): string
  {
    if shortcutTo == Some(to) then TakeShortcut
    else if straightTo == Some(to) then GoStraight
    else ChoosePath
  }

  function Lookup(m: map<string, string>, k: string): Option<string>
  {
    if k in m then Some(m[k]) else None
  }

  /** The labelled options before sorting, one per outgoing target. */
  function Labelled(outs: seq<string>, shortcutTo: Option<string>, straightTo: Option<string>): (r: seq<ForkOption>)
    ensures |r| == |outs|
    ensures forall i :: 0 <= i < |outs| ==> r[i] == ForkOption(outs[i], LabelFor(shortcutTo, straightTo, outs[i]))
  {
    if outs == [] then [] else [ForkOption(outs[0], LabelFor(shortcutTo, straightTo, outs[0]))] + Labelled(outs[1..], shortcutTo, straightTo)
  }

  function ForkOptionsOf(board: BoardGraph, forkNodeId: Option<string>): seq<ForkOption>
  {
    if IsNullOrBlank(forkNodeId) || board.Outgoing(forkNodeId.value) == [] then []
    else
      var fork := forkNodeId.value;
      Sorting.SortBy(Labelled(board.Outgoing(fork), Lookup(ShortcutTarget, fork), Lookup(StraightTarget, fork)), OptionLe)
  }

  /** getForkOptions: label every outgoing target, then sort shortcut first and by target. */
  method GetForkOptions(board: BoardGraph, forkNodeId: Option<string>) returns (options: seq<ForkOption>)
    ensures options == ForkOptionsOf(board, forkNodeId)
  {
    if IsNullOrBlank(forkNodeId) { return []; }
    var fork := forkNodeId.value;
    var outs := board.Outgoing(fork);
    if outs == [] { return []; }
    var straightTo := Lookup(StraightTarget, fork);
    var shortcutTo := Lookup(ShortcutTarget, fork);
    var built: seq<ForkOption> := [];
    var i := 0;
    while i < |outs|
      invariant 0 <= i <= |outs| && |built| == i
      invariant forall k :: 0 <= k < i ==> built[k] == ForkOption(outs[k], LabelFor(shortcutTo, straightTo, outs[k]))
    {
      var to := outs[i];
      if shortcutTo == Some(to) {
        built := built + [ForkOption(to, TakeShortcut)];
      } else if straightTo == Some(to) {
        built := built + [ForkOption(to, GoStraight)];
      } else {
        built := built + [ForkOption(to, ChoosePath)];
      }
      i := i + 1;
    }
    assert built == Labelled(outs, shortcutTo, straightTo);
    options := Sorting.SortBy(built, OptionLe);
  }

  function Targets(options: seq<ForkOption>): (r: seq<string>)
    ensures |r| == |options| && forall i :: 0 <= i < |options| ==> r[i] == options[i].to
  {
    if options == [] then [] else [options[0].to] + Targets(options[1..])
  }

  /**
   * The options of a fork: empty for a blank id or a node without edges; otherwise a
   * rearrangement of one option per outgoing target, in the order of the edges.
   */
  lemma ForkOptionsPermutation(board: BoardGraph, forkNodeId: Option<string>)
    ensures IsNullOrBlank(forkNodeId) || board.Outgoing(forkNodeId.value) == [] ==> ForkOptionsOf(board, forkNodeId) == []
    ensures !IsNullOrBlank(forkNodeId) ==>
      var fork := forkNodeId.value;
      var built := Labelled(board.Outgoing(fork), Lookup(ShortcutTarget, fork), Lookup(StraightTarget, fork));
      Targets(built) == board.Outgoing(fork) &&
      multiset(ForkOptionsOf(board, forkNodeId)) == multiset(built)
  {
  }

  /** Each option carries the label the hard-coded maps give its target. */
  lemma ForkOptionsLabels(board: BoardGraph, forkNodeId: Option<string>)
    requires !IsNullOrBlank(forkNodeId)
    ensures var r := ForkOptionsOf(board, forkNodeId);
      forall i :: 0 <= i < |r| ==>
        r[i].labelText == LabelFor(Lookup(ShortcutTarget, forkNodeId.value), Lookup(StraightTarget, forkNodeId.value), r[i].to)
  {
    var r := ForkOptionsOf(board, forkNodeId);
    var fork := forkNodeId.value;
    var sc, st := Lookup(ShortcutTarget, fork), Lookup(StraightTarget, fork);
    if board.Outgoing(fork) != [] {
      var built := Labelled(board.Outgoing(fork), sc, st);
      forall i | 0 <= i < |r| ensures r[i].labelText == LabelFor(sc, st, r[i].to) {
        assert r[i] in multiset(built);
        var k :| 0 <= k < |built| && built[k] == r[i];
      }
    }
  }

  /** All "Take shortcut" options come first, and targets ascend within each group. */
  lemma ForkOptionsOrdered(board: BoardGraph, forkNodeId: Option<string>)
    ensures var r := ForkOptionsOf(board, forkNodeId);
      forall i, j :: 0 <= i < j < |r| ==>
        (IsShortcut(r[i]) || !IsShortcut(r[j])) &&
        (IsShortcut(r[i]) == IsShortcut(r[j]) ==> !StrLess(r[j].to, r[i].to))
  {
    var r := ForkOptionsOf(board, forkNodeId);
    if !IsNullOrBlank(forkNodeId) && board.Outgoing(forkNodeId.value) != [] {
      var fork := forkNodeId.value;
      var built := Labelled(board.Outgoing(fork), Lookup(ShortcutTarget, fork), Lookup(StraightTarget, fork));
      OptionLePreorder();
      Sorting.SortBySorted(built, OptionLe);
      forall i, j | 0 <= i < j < |r|
        ensures (IsShortcut(r[i]) || !IsShortcut(r[j])) && (IsShortcut(r[i]) == IsShortcut(r[j]) ==> !StrLess(r[j].to, r[i].to))
      {
        assert OptionLe(r[i], r[j]);
      }
    }
  }
}
