/**
 The trace graph of a session as a fold over its visible messages, the event logs of their runs, the
 runs' artifacts and the branches forked from checkpoints.

 Node ids, which the program builds by joining strings, are a datatype here.
 */
module TraceDag {
  import opened Wrappers

  datatype NodeId =
    | Message(id: string)
    | RunStart(run: string)
    | Context(run: string, seqNo: nat)
    | Terminal(run: string, seqNo: nat)
    | Tool(run: string, call: string)
    | Artifact(id: string)
    | BranchNode(id: string)

  /** `text` is what a context node gathers while it is active; `checkpoint` what can be rolled back to. */
  datatype Node = Node(id: NodeId, run: string, seqNo: Option<nat>, call: Option<string>, text: string,
                       checkpoint: Option<string>)

  datatype EdgeKind = StartsRun | Emits | ProducesArtifact | BranchesFrom

  datatype Edge = Edge(source: NodeId, target: NodeId, kind: EdgeKind)

  datatype CheckpointKind = ContextCheckpoint | TerminalCheckpoint | OtherCheckpoint

  datatype Checkpoint = Checkpoint(id: string, run: string, seqNo: nat, call: Option<string>, kind: CheckpointKind)

  /** `order` is the insertion order of the node map. */
  datatype Graph = Graph(order: seq<NodeId>, nodes: map<NodeId, Node>, edges: seq<Edge>,
                         checkpointNode: map<string, NodeId>)

  const EMPTY := Graph([], map[], [], map[])

  // ---------------------------------------------------------------- what is read from the stores

  datatype UserTurn = UserTurn(id: string, run: string, isUser: bool)

  /** What an event means to the graph. A tool event without a call id is `Ignored`. */
  datatype Payload = ContextCompiled | ContextUpdate(delta: string) | ToolEvent(call: string) | RunEnded | Ignored

  datatype Event = Event(seqNo: nat, payload: Payload)

  datatype Branch = Branch(id: string, forkRun: string, forkCheckpoint: Option<string>)

  datatype Input = Input(messages: seq<UserTurn>, forkRun: Option<string>, events: map<string, seq<Event>>,
                         artifacts: map<string, seq<string>>, checkpoints: seq<Checkpoint>, branches: seq<Branch>)

  function EventsOf(input: Input, run: string): seq<Event> {
    if run in input.events then input.events[run] else []
  }

  function ArtifactsOf(input: Input, run: string): seq<string> {
    if run in input.artifacts then input.artifacts[run] else []
  }

  // ---------------------------------------------------------------- checkpoints

  /** The last checkpoint stored for a tool call. */
  function ToolCheckpoint(checkpoints: seq<Checkpoint>, run: string, call: string): Option<Checkpoint> {
    if checkpoints == [] then None
    else
      var last := checkpoints[|checkpoints| - 1];
      if last.run == run && last.call == Some(call) then Some(last)
      else ToolCheckpoint(checkpoints[..|checkpoints| - 1], run, call)
  }

  /** The checkpoints of one event, in order. */
  function EventCheckpoints(checkpoints: seq<Checkpoint>, run: string, seqNo: nat): seq<Checkpoint> {
    if checkpoints == [] then []
    else
      var last := checkpoints[|checkpoints| - 1];
      EventCheckpoints(checkpoints[..|checkpoints| - 1], run, seqNo)
      + if last.run == run && last.seqNo == seqNo then [last] else []
  }

  function FirstOfKind(checkpoints: seq<Checkpoint>, kind: CheckpointKind): Option<Checkpoint> {
    if checkpoints == [] then None
    else if checkpoints[0].kind == kind then Some(checkpoints[0])
    else FirstOfKind(checkpoints[1..], kind)
  }

  function Preferred(id: NodeId, checkpoints: seq<Checkpoint>): Option<Checkpoint> {
    var wanted := if id.Context? then FirstOfKind(checkpoints, ContextCheckpoint)
                  else if id.Terminal? then FirstOfKind(checkpoints, TerminalCheckpoint)
                  else None;
    if wanted.Some? then wanted else if checkpoints == [] then None else Some(checkpoints[0])
  }

  function ResolveCheckpoint(node: Node, checkpoints: seq<Checkpoint>): Option<Checkpoint> {
    if node.run == "" then None
    else
      var byTool := if node.call.Some? then ToolCheckpoint(checkpoints, node.run, node.call.value) else None;
      if byTool.Some? then byTool
      else if node.seqNo.None? then None
      else Preferred(node.id, EventCheckpoints(checkpoints, node.run, node.seqNo.value))
  }

  // ---------------------------------------------------------------- the builder

  function Merge(existing: Node, node: Node): Node {
    Node(node.id, node.run,
         if node.seqNo.Some? then node.seqNo else existing.seqNo,
         if node.call.Some? then node.call else existing.call,
         existing.text + node.text, existing.checkpoint)
  }

  function Attached(node: Node, found: Option<Checkpoint>): Node {
    if found.Some? then node.(checkpoint := Some(found.value.id)) else node
  }

  function AddNode(g: Graph, checkpoints: seq<Checkpoint>, node: Node): Graph {
    var next := if node.id in g.nodes then Merge(g.nodes[node.id], node) else node;
    var found := ResolveCheckpoint(next, checkpoints);
    Graph(
      if node.id in g.nodes then g.order else g.order + [node.id],
      g.nodes[node.id := Attached(next, found)],
      g.edges,
      if found.Some? then g.checkpointNode[found.value.id := node.id] else g.checkpointNode)
  }

  function AddEdge(g: Graph, edge: Edge): Graph {
    if edge.source == edge.target || edge in g.edges then g else g.(edges := g.edges + [edge])
  }

  // ---------------------------------------------------------------- user turns

  function TurnNode(turn: UserTurn): Node {
    Node(Message(turn.id), turn.run, None, None, "", None)
  }

  function AddTurns(g: Graph, checkpoints: seq<Checkpoint>, messages: seq<UserTurn>): Graph {
    if messages == [] then g
    else
      var last := messages[|messages| - 1];
      var before := AddTurns(g, checkpoints, messages[..|messages| - 1]);
      if last.isUser then AddNode(before, checkpoints, TurnNode(last)) else before
  }

  /** The first user message of a run. */
  function FirstUser(messages: seq<UserTurn>, run: string): Option<string> {
    if messages == [] then None
    else
      var last, earlier := messages[|messages| - 1], FirstUser(messages[..|messages| - 1], run);
      if earlier.Some? then earlier
      else if last.isUser && last.run == run then Some(last.id) else None
  }

  /** Names in order of first appearance, the empty one left out. */
  function Unique(names: seq<string>): (r: seq<string>)
    ensures forall name :: name in r <==> name != "" && name in names
  {
    if names == [] then []
    else
      var last, earlier := names[|names| - 1], Unique(names[..|names| - 1]);
      assert names == names[..|names| - 1] + [last];
      if last == "" || last in earlier then earlier else earlier + [last]
  }

  function VisibleRuns(input: Input): seq<string> {
    Unique(seq(|input.messages|, i requires 0 <= i < |input.messages| => input.messages[i].run)
           + if input.forkRun.Some? then [input.forkRun.value] else [])
  }

  // ---------------------------------------------------------------- one run

  datatype Cursor = Cursor(graph: Graph, last: NodeId, active: Option<NodeId>, tools: map<string, NodeId>)

  function ContextNode(run: string, seqNo: nat): Node {
    Node(Context(run, seqNo), run, Some(seqNo), None, "", None)
  }

  function ToolNode(id: NodeId, run: string, seqNo: nat, call: string): Node {
    Node(id, run, Some(seqNo), Some(call), "", None)
  }

  function TerminalNode(run: string, seqNo: nat): Node {
    Node(Terminal(run, seqNo), run, Some(seqNo), None, "", None)
  }

  function AddEvent(c: Cursor, checkpoints: seq<Checkpoint>, run: string, event: Event): Cursor {
    match event.payload
    case ContextCompiled =>
      var node := ContextNode(run, event.seqNo);
      Cursor(AddEdge(AddNode(c.graph, checkpoints, node), Edge(c.last, node.id, Emits)), node.id, Some(node.id),
             c.tools)
    case ContextUpdate(delta) =>
      if c.active.None? then c
      else c.(graph := AddNode(c.graph, checkpoints, Node(c.active.value, run, None, None, delta, None)))
    case ToolEvent(call) =>
      var id := if call in c.tools then c.tools[call] else Tool(run, call);
      var added := AddNode(c.graph, checkpoints, ToolNode(id, run, event.seqNo, call));
      Cursor(if call in c.tools then added else AddEdge(added, Edge(c.last, id, Emits)),
             id, c.active, c.tools[call := id])
    case RunEnded =>
      var node := TerminalNode(run, event.seqNo);
      c.(graph := AddEdge(AddNode(c.graph, checkpoints, node), Edge(c.last, node.id, Emits)), last := node.id)
    case Ignored => c
  }

  function AddEvents(c: Cursor, checkpoints: seq<Checkpoint>, run: string, events: seq<Event>): Cursor {
    if events == [] then c
    else AddEvent(AddEvents(c, checkpoints, run, events[..|events| - 1]), checkpoints, run, events[|events| - 1])
  }

  function StartRun(g: Graph, checkpoints: seq<Checkpoint>, run: string, turn: Option<string>): Cursor {
    var node := Node(RunStart(run), run, None, None, "", None);
    var added := AddNode(g, checkpoints, node);
    Cursor(if turn.Some? then AddEdge(added, Edge(Message(turn.value), node.id, StartsRun)) else added,
           node.id, None, map[])
  }

  function AddRun(g: Graph, input: Input, run: string): Cursor {
    AddEvents(StartRun(g, input.checkpoints, run, FirstUser(input.messages, run)), input.checkpoints, run,
              EventsOf(input, run))
  }

  /** The graph after the given runs, and the last node of each. */
  function AddRuns(g: Graph, input: Input, runs: seq<string>): (Graph, map<string, NodeId>) {
    if runs == [] then (g, map[])
    else
      var run := runs[|runs| - 1];
      var (before, lasts) := AddRuns(g, input, runs[..|runs| - 1]);
      var c := AddRun(before, input, run);
      (c.graph, lasts[run := c.last])
  }

  // ---------------------------------------------------------------- artifacts and branches

  function AddArtifacts(g: Graph, checkpoints: seq<Checkpoint>, run: string, artifacts: seq<string>,
                        parent: Option<NodeId>): Graph {
    if artifacts == [] then g
    else
      var last := artifacts[|artifacts| - 1];
      var before := AddArtifacts(g, checkpoints, run, artifacts[..|artifacts| - 1], parent);
      var added := AddNode(before, checkpoints, Node(Artifact(last), run, None, None, "", None));
      if parent.Some? then AddEdge(added, Edge(parent.value, Artifact(last), ProducesArtifact)) else added
  }

  function AddAllArtifacts(g: Graph, input: Input, runs: seq<string>, lasts: map<string, NodeId>): Graph {
    if runs == [] then g
    else
      var run := runs[|runs| - 1];
      AddArtifacts(AddAllArtifacts(g, input, runs[..|runs| - 1], lasts), input.checkpoints, run,
                   ArtifactsOf(input, run), if run in lasts then Some(lasts[run]) else None)
  }

  function AddBranch(g: Graph, checkpoints: seq<Checkpoint>, branch: Branch): Graph {
    if branch.forkCheckpoint.None? || branch.forkCheckpoint.value !in g.checkpointNode then g
    else
      var source := g.checkpointNode[branch.forkCheckpoint.value];
      AddEdge(AddNode(g, checkpoints, Node(BranchNode(branch.id), branch.forkRun, None, None, "", None)),
              Edge(source, BranchNode(branch.id), BranchesFrom))
  }

  function AddBranches(g: Graph, checkpoints: seq<Checkpoint>, branches: seq<Branch>): Graph {
    if branches == [] then g
    else AddBranch(AddBranches(g, checkpoints, branches[..|branches| - 1]), checkpoints, branches[|branches| - 1])
  }

  function Build(input: Input): Graph {
    var runs := VisibleRuns(input);
    var (g, lasts) := AddRuns(AddTurns(EMPTY, input.checkpoints, input.messages), input, runs);
    AddBranches(AddAllArtifacts(g, input, runs, lasts), input.checkpoints, input.branches)
  }

  // ---------------------------------------------------------------- sections

  /** The nodes a section lists: those of its run whose event lies in its range, in graph order. */
  function NodesIn(g: Graph, order: seq<NodeId>, run: string, start: nat, end: nat): seq<NodeId> {
    if order == [] then []
    else
      var id, earlier := order[|order| - 1], NodesIn(g, order[..|order| - 1], run, start, end);
      if id in g.nodes && g.nodes[id].run == run && run != ""
         && g.nodes[id].seqNo.Some? && start <= g.nodes[id].seqNo.value <= end
      then earlier + [id] else earlier
  }
}
