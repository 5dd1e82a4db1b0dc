/**
 The builder's fields and the loops that fill them, against the fold in TraceDag.dfy.
 */
module TraceDagBuilder {
  import opened Wrappers
  import opened TraceDag

  class Builder {
    ghost const checkpoints: seq<Checkpoint>
    const checkpointByEvent: map<(string, nat), seq<Checkpoint>>
    const checkpointByTool: map<(string, string), Checkpoint>
    var checkpointNodeId: map<string, NodeId>
    var edges: seq<Edge>
    var order: seq<NodeId>
    var nodeById: map<NodeId, Node>

    /** The two indexes hold what the checkpoint list says. */
    ghost predicate Valid() {
      Indexed(checkpoints, checkpointByEvent, checkpointByTool)
    }

    function Contents(): Graph
      reads this
    {
      Graph(order, nodeById, edges, checkpointNodeId)
    }

    constructor (checkpoints: seq<Checkpoint>)
      ensures Valid() && this.checkpoints == checkpoints && Contents() == EMPTY
    {
      var byEvent, byTool := map[], map[];
      for i := 0 to |checkpoints|
        invariant Indexed(checkpoints[..i], byEvent, byTool)
      {
        var checkpoint := checkpoints[i];
        IndexStep(checkpoints[..i], byEvent, byTool, checkpoint);
        assert checkpoints[..i + 1] == checkpoints[..i] + [checkpoint];
        var eventKey := (checkpoint.run, checkpoint.seqNo);
        var current := if eventKey in byEvent then byEvent[eventKey] else [];
        byEvent := byEvent[eventKey := current + [checkpoint]];
        if checkpoint.call.Some? {
          byTool := byTool[(checkpoint.run, checkpoint.call.value) := checkpoint];
        }
      }
      assert checkpoints[..|checkpoints|] == checkpoints;
      this.checkpoints := checkpoints;
      checkpointByEvent, checkpointByTool := byEvent, byTool;
      checkpointNodeId, edges, order, nodeById := map[], [], [], map[];
    }

    method Resolve(node: Node) returns (found: Option<Checkpoint>)
      requires Valid()
      ensures found == ResolveCheckpoint(node, checkpoints)
    {
      if node.run == "" {
        return None;
      }
      if node.call.Some? {
        assert EventEntry(checkpoints, checkpointByEvent, checkpointByTool, node.run, 0, node.call.value);
        if (node.run, node.call.value) in checkpointByTool {
          return Some(checkpointByTool[(node.run, node.call.value)]);
        }
      }
      if node.seqNo.None? {
        return None;
      }
      assert EventEntry(checkpoints, checkpointByEvent, checkpointByTool, node.run, node.seqNo.value, "");
      var eventKey := (node.run, node.seqNo.value);
      found := Preferred(node.id, if eventKey in checkpointByEvent then checkpointByEvent[eventKey] else []);
    }

    method Add(node: Node)
      requires Valid()
      modifies this
      ensures Contents() == AddNode(old(Contents()), checkpoints, node)
    {
      var next := if node.id in nodeById then Merge(nodeById[node.id], node) else node;
      var checkpoint := Resolve(next);
      if checkpoint.Some? {
        next := next.(checkpoint := Some(checkpoint.value.id));
        checkpointNodeId := checkpointNodeId[checkpoint.value.id := node.id];
      }
      if node.id !in nodeById {
        order := order + [node.id];
      }
      nodeById := nodeById[node.id := next];
    }

    method Connect(source: NodeId, target: NodeId, kind: EdgeKind)
      modifies this`edges
      ensures Contents() == AddEdge(old(Contents()), Edge(source, target, kind))
    {
      var edge := Edge(source, target, kind);
      if source == target || edge in edges {
        return;
      }
      edges := edges + [edge];
    }

    /** One message node per user message; the first of a run begins it. */
    method AddUserTurnNodes(messages: seq<UserTurn>) returns (userNodeByRunId: map<string, NodeId>)
      requires Valid()
      modifies this
      ensures Contents() == AddTurns(old(Contents()), checkpoints, messages)
      ensures forall run :: TurnOf(userNodeByRunId, run) == FirstUser(messages, run)
    {
      userNodeByRunId := map[];
      for i := 0 to |messages|
        invariant Contents() == AddTurns(old(Contents()), checkpoints, messages[..i])
        invariant forall run :: run in userNodeByRunId ==> userNodeByRunId[run].Message?
        invariant forall run :: TurnOf(userNodeByRunId, run) == FirstUser(messages[..i], run)
      {
        var message := messages[i];
        assert messages[..i + 1][..i] == messages[..i];
        if message.isUser {
          Add(TurnNode(message));
          if message.run !in userNodeByRunId {
            assert TurnOf(userNodeByRunId, message.run) == FirstUser(messages[..i], message.run);
            userNodeByRunId := userNodeByRunId[message.run := Message(message.id)];
          }
        }
      }
      assert messages[..|messages|] == messages;
    }

    /** One event of the log, with the locals of the run's loop. */
    method AddEventNode(run: string, event: TraceDag.Event, lastNodeId: NodeId, active: Option<NodeId>,
                        toolNodeIds: map<string, NodeId>)
      returns (last: NodeId, nowActive: Option<NodeId>, tools: map<string, NodeId>)
      requires Valid()
      modifies this
      ensures Cursor(Contents(), last, nowActive, tools)
           == AddEvent(Cursor(old(Contents()), lastNodeId, active, toolNodeIds), checkpoints, run, event)
    {
      last, nowActive, tools := lastNodeId, active, toolNodeIds;
      match event.payload
      case ContextCompiled =>
        var node := ContextNode(run, event.seqNo);
        Add(node);
        Connect(lastNodeId, node.id, Emits);
        last, nowActive := node.id, Some(node.id);
      case ContextUpdate(delta) =>
        if active.Some? {
          Add(Node(active.value, run, None, None, delta, None));
        }
      case ToolEvent(call) =>
        var id := if call in toolNodeIds then toolNodeIds[call] else Tool(run, call);
        Add(ToolNode(id, run, event.seqNo, call));
        if call !in toolNodeIds {
          Connect(lastNodeId, id, Emits);
        }
        last, tools := id, tools[call := id];
      case RunEnded =>
        var node := TerminalNode(run, event.seqNo);
        Add(node);
        Connect(lastNodeId, node.id, Emits);
        last := node.id;
      case Ignored =>
    }

    /** The start node of a run and its log. */
    method AddRunNodes(input: Input, run: string, userNode: Option<string>) returns (lastNodeId: NodeId)
      requires Valid() && checkpoints == input.checkpoints && userNode == FirstUser(input.messages, run)
      modifies this
      ensures Contents() == AddRun(old(Contents()), input, run).graph
      ensures lastNodeId == AddRun(old(Contents()), input, run).last
    {
      lastNodeId := RunStart(run);
      Add(Node(lastNodeId, run, None, None, "", None));
      if userNode.Some? {
        Connect(Message(userNode.value), lastNodeId, StartsRun);
      }
      var active: Option<NodeId>, toolNodeIds: map<string, NodeId> := None, map[];
      ghost var start := Cursor(Contents(), lastNodeId, active, toolNodeIds);
      assert start == StartRun(old(Contents()), checkpoints, run, userNode);
      var events := EventsOf(input, run);
      for i := 0 to |events|
        invariant Cursor(Contents(), lastNodeId, active, toolNodeIds) == AddEvents(start, checkpoints, run, events[..i])
      {
        assert events[..i + 1][..i] == events[..i];
        lastNodeId, active, toolNodeIds := AddEventNode(run, events[i], lastNodeId, active, toolNodeIds);
      }
      assert events[..|events|] == events;
    }

    method AddArtifactNodes(run: string, artifacts: seq<string>, parent: Option<NodeId>)
      requires Valid()
      modifies this
      ensures Contents() == AddArtifacts(old(Contents()), checkpoints, run, artifacts, parent)
    {
      for i := 0 to |artifacts|
        invariant Contents() == AddArtifacts(old(Contents()), checkpoints, run, artifacts[..i], parent)
      {
        assert artifacts[..i + 1][..i] == artifacts[..i];
        Add(Node(Artifact(artifacts[i]), run, None, None, "", None));
        if parent.Some? {
          Connect(parent.value, Artifact(artifacts[i]), ProducesArtifact);
        }
      }
      assert artifacts[..|artifacts|] == artifacts;
    }

    method AddCheckpointBranchNodes(branches: seq<Branch>)
      requires Valid()
      modifies this
      ensures Contents() == AddBranches(old(Contents()), checkpoints, branches)
    {
      for i := 0 to |branches|
        invariant Contents() == AddBranches(old(Contents()), checkpoints, branches[..i])
      {
        var branch := branches[i];
        assert branches[..i + 1][..i] == branches[..i];
        if branch.forkCheckpoint.Some? && branch.forkCheckpoint.value in checkpointNodeId {
          var source := checkpointNodeId[branch.forkCheckpoint.value];
          Add(Node(BranchNode(branch.id), branch.forkRun, None, None, "", None));
          Connect(source, BranchNode(branch.id), BranchesFrom);
        }
      }
      assert branches[..|branches|] == branches;
    }
  }

  function TurnOf(userNodeByRunId: map<string, NodeId>, run: string): Option<string> {
    if run in userNodeByRunId && userNodeByRunId[run].Message? then Some(userNodeByRunId[run].id) else None
  }

  ghost predicate EventEntry(checkpoints: seq<Checkpoint>, byEvent: map<(string, nat), seq<Checkpoint>>,
                             byTool: map<(string, string), Checkpoint>, run: string, seqNo: nat, call: string) {
    && (if (run, seqNo) in byEvent then byEvent[(run, seqNo)] else []) == EventCheckpoints(checkpoints, run, seqNo)
    && (if (run, call) in byTool then Some(byTool[(run, call)]) else None) == ToolCheckpoint(checkpoints, run, call)
  }

  ghost predicate Indexed(checkpoints: seq<Checkpoint>, byEvent: map<(string, nat), seq<Checkpoint>>,
                          byTool: map<(string, string), Checkpoint>) {
    forall run, seqNo, call :: EventEntry(checkpoints, byEvent, byTool, run, seqNo, call)
  }

  lemma IndexStep(checkpoints: seq<Checkpoint>, byEvent: map<(string, nat), seq<Checkpoint>>,
                  byTool: map<(string, string), Checkpoint>, checkpoint: Checkpoint)
    requires Indexed(checkpoints, byEvent, byTool)
    ensures var key := (checkpoint.run, checkpoint.seqNo);
      Indexed(checkpoints + [checkpoint],
              byEvent[key := (if key in byEvent then byEvent[key] else []) + [checkpoint]],
              if checkpoint.call.Some? then byTool[(checkpoint.run, checkpoint.call.value) := checkpoint] else byTool)
  {
    var all := checkpoints + [checkpoint];
    var key := (checkpoint.run, checkpoint.seqNo);
    assert all[..|checkpoints|] == checkpoints;
    var byEvent' := byEvent[key := (if key in byEvent then byEvent[key] else []) + [checkpoint]];
    var byTool' := if checkpoint.call.None? then byTool
                   else byTool[(checkpoint.run, checkpoint.call.value) := checkpoint];
    forall run, seqNo, call ensures EventEntry(all, byEvent', byTool', run, seqNo, call) {
      assert EventEntry(checkpoints, byEvent, byTool, run, seqNo, call);
    }
  }

  /** The loop over the visible runs. */
  method AddRunTraces(builder: Builder, input: Input, runIds: seq<string>, userNodeByRunId: map<string, NodeId>)
    returns (runLastNodeByRunId: map<string, NodeId>)
    requires builder.Valid() && builder.checkpoints == input.checkpoints
    requires forall run :: TurnOf(userNodeByRunId, run) == FirstUser(input.messages, run)
    modifies builder
    ensures (builder.Contents(), runLastNodeByRunId) == AddRuns(old(builder.Contents()), input, runIds)
  {
    runLastNodeByRunId := map[];
    for i := 0 to |runIds|
      invariant (builder.Contents(), runLastNodeByRunId) == AddRuns(old(builder.Contents()), input, runIds[..i])
    {
      assert runIds[..i + 1][..i] == runIds[..i];
      var lastNodeId := builder.AddRunNodes(input, runIds[i], TurnOf(userNodeByRunId, runIds[i]));
      runLastNodeByRunId := runLastNodeByRunId[runIds[i] := lastNodeId];
    }
    assert runIds[..|runIds|] == runIds;
  }

  /** The loop over the runs' artifacts. */
  method AddRunArtifacts(builder: Builder, input: Input, runIds: seq<string>, runLastNodeByRunId: map<string, NodeId>)
    requires builder.Valid() && builder.checkpoints == input.checkpoints
    modifies builder
    ensures builder.Contents() == AddAllArtifacts(old(builder.Contents()), input, runIds, runLastNodeByRunId)
  {
    for i := 0 to |runIds|
      invariant builder.Contents() == AddAllArtifacts(old(builder.Contents()), input, runIds[..i], runLastNodeByRunId)
    {
      assert runIds[..i + 1][..i] == runIds[..i];
      builder.AddArtifactNodes(runIds[i], ArtifactsOf(input, runIds[i]),
                               if runIds[i] in runLastNodeByRunId then Some(runLastNodeByRunId[runIds[i]]) else None);
    }
    assert runIds[..|runIds|] == runIds;
  }

  /** The whole graph, built in the program's order. */
  method BuildSessionTraceDag(input: Input) returns (nodes: seq<NodeId>, edges: seq<Edge>)
    ensures nodes == Build(input).order && edges == Build(input).edges
  {
    var runIds := VisibleRuns(input);
    var builder := new Builder(input.checkpoints);
    var userNodeByRunId := builder.AddUserTurnNodes(input.messages);
    var runLastNodeByRunId := AddRunTraces(builder, input, runIds, userNodeByRunId);
    AddRunArtifacts(builder, input, runIds, runLastNodeByRunId);
    builder.AddCheckpointBranchNodes(input.branches);
    nodes, edges := builder.order, builder.edges;
  }
}
