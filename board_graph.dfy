/**
 * The runtime board (BoardGraph.java) and its node types (BoardNodeType.java).
 * A value: every field is final and there are no mutators, so a datatype is the whole story.
 */
module BoardGraphs {
  import opened Wrappers

  datatype BoardNodeType = Start | Finish | Easy | Medium | Hard | Special | Jail | Fork

  datatype BoardGraph = BoardGraph(
    nodeTypeById: map<string, BoardNodeType>,
    outgoingById: map<string, seq<string>>,
    startNodeId: string,
    finishNodeId: string,
    jailNodeId: Option<string>)
  {
    /** Map.get: the recorded type, or null for an unknown id. */
    function GetType(nodeId: string): Option<BoardNodeType>
    {
      if nodeId in nodeTypeById then Some(nodeTypeById[nodeId]) else None
    }

    /** Map.getOrDefault with the empty list. */
    function Outgoing(fromId: string): seq<string>
    {
      if fromId in outgoingById then outgoingById[fromId] else []
    }

    predicate HasType(nodeId: string, t: BoardNodeType)
    {
      GetType(nodeId) == Some(t)
    }
  }
}
