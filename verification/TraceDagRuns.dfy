/**
 What one run's event log puts into the trace graph, node by node and edge by edge, and that folding
 the log keeps the graph a forest rooted in the run's start node.
 */
module TraceDagRuns {
  import opened Wrappers
  import opened TraceDag
  import opened TraceDagForest

  ghost predicate Increasing(events: seq<Event>) {
    |events| <= 1 ||
    (events[|events| - 2].seqNo < events[|events| - 1].seqNo && Increasing(events[..|events| - 1]))
  }

  // ---------------------------------------------------------------- the log read on its own

  ghost predicate CompiledAt(events: seq<Event>, seqNo: nat) {
    events != [] &&
    ((events[|events| - 1].seqNo == seqNo && events[|events| - 1].payload.ContextCompiled?)
     || CompiledAt(events[..|events| - 1], seqNo))
  }

  ghost predicate EndedAt(events: seq<Event>, seqNo: nat) {
    events != [] &&
    ((events[|events| - 1].seqNo == seqNo && events[|events| - 1].payload.RunEnded?)
     || EndedAt(events[..|events| - 1], seqNo))
  }

  /** The latest event of a tool call. */
  function Latest(events: seq<Event>, call: string): Option<nat> {
    if events == [] then None
    else if events[|events| - 1].payload == ToolEvent(call) then Some(events[|events| - 1].seqNo)
    else Latest(events[..|events| - 1], call)
  }

  /** The context compiled last. */
  function ActiveAt(events: seq<Event>): Option<nat> {
    if events == [] then None
    else if events[|events| - 1].payload.ContextCompiled? then Some(events[|events| - 1].seqNo)
    else ActiveAt(events[..|events| - 1])
  }

  /** The deltas logged while the context compiled at `seqNo` was the last one, joined in order. */
  function Said(events: seq<Event>, seqNo: nat): string {
    if events == [] then ""
    else
      var last, front := events[|events| - 1], events[..|events| - 1];
      if last.payload.ContextUpdate? && ActiveAt(front) == Some(seqNo) then Said(front, seqNo) + last.payload.delta
      else Said(front, seqNo)
  }

  /** The node of the last event that has one. */
  function LastOf(run: string, events: seq<Event>): NodeId {
    if events == [] then RunStart(run)
    else
      var last := events[|events| - 1];
      match last.payload
      case ContextCompiled => Context(run, last.seqNo)
      case ToolEvent(call) => Tool(run, call)
      case RunEnded => Terminal(run, last.seqNo)
      case _ => LastOf(run, events[..|events| - 1])
  }

  /** Does `event`, coming after `front`, open a node of its own? */
  predicate Opens(front: seq<Event>, event: Event) {
    match event.payload
    case ContextCompiled => true
    case RunEnded => true
    case ToolEvent(call) => Latest(front, call).None?
    case _ => false
  }

  /** Each node hangs below the node of the event before it. */
  ghost predicate Linked(edges: seq<Edge>, run: string, events: seq<Event>) {
    events == [] ||
    var front, last := events[..|events| - 1], events[|events| - 1];
    && Linked(edges, run, front)
    && (Opens(front, last) ==> Edge(LastOf(run, front), LastOf(run, events), Emits) in edges)
  }

  // ---------------------------------------------------------------- the graph against the log

  datatype Entry = Entry(seqNo: Option<nat>, text: string)

  /** What the log says about a node of its run: whether it exists, its event number and its text. */
  ghost function Expected(events: seq<Event>, id: NodeId): Option<Entry> {
    match id
    case RunStart(_) => Some(Entry(None, ""))
    case Context(_, s) => if CompiledAt(events, s) then Some(Entry(Some(s), Said(events, s))) else None
    case Terminal(_, s) => if EndedAt(events, s) then Some(Entry(Some(s), "")) else None
    case Tool(_, call) => if Latest(events, call).Some? then Some(Entry(Latest(events, call), "")) else None
    case _ => None
  }

  function EntryOf(g: Graph, id: NodeId): Option<Entry> {
    if id in g.nodes then Some(Entry(g.nodes[id].seqNo, g.nodes[id].text)) else None
  }

  ghost predicate Recorded(g: Graph, run: string, events: seq<Event>) {
    forall id :: OfRun(id, run) ==> EntryOf(g, id) == Expected(events, id)
  }

  ghost predicate RunFacts(g: Graph, run: string, events: seq<Event>) {
    Recorded(g, run, events) && Linked(g.edges, run, events)
  }

  ghost predicate CursorFacts(c: Cursor, run: string, events: seq<Event>) {
    && c.last == LastOf(run, events)
    && c.active == (if ActiveAt(events).Some? then Some(Context(run, ActiveAt(events).value)) else None)
    && (forall call :: call in c.tools <==> Latest(events, call).Some?)
    && (forall call :: call in c.tools ==> c.tools[call] == Tool(run, call))
  }

  ghost predicate Sound(messages: seq<UserTurn>, g: Graph) {
    Forest(messages, g) && Rooted(g)
  }

  /** Nothing but nodes of `run` changes, and edges are only added. */
  ghost predicate OnlyRun(before: Graph, after: Graph, run: string) {
    && (forall id :: !OfRun(id, run) ==> (id in after.nodes <==> id in before.nodes))
    && (forall id :: !OfRun(id, run) && id in before.nodes ==> after.nodes[id] == before.nodes[id])
    && before.edges <= after.edges
  }

  // ---------------------------------------------------------------- facts about logs

  lemma {:induction false} LogOrder(events: seq<Event>, seqNo: nat)
    requires Increasing(events) && (CompiledAt(events, seqNo) || EndedAt(events, seqNo))
    ensures seqNo <= events[|events| - 1].seqNo
  {
    var front, last := events[..|events| - 1], events[|events| - 1];
    if CompiledAt(front, seqNo) || EndedAt(front, seqNo) { LogOrder(front, seqNo); }
  }

  lemma FreshEvent(events: seq<Event>, event: Event)
    requires Increasing(events + [event])
    ensures !CompiledAt(events, event.seqNo) && !EndedAt(events, event.seqNo) && Increasing(events)
  {
    Appended(events, event);
    if CompiledAt(events, event.seqNo) || EndedAt(events, event.seqNo) { LogOrder(events, event.seqNo); }
  }

  lemma {:induction false} ActiveIsCompiled(events: seq<Event>)
    ensures ActiveAt(events).Some? ==> CompiledAt(events, ActiveAt(events).value)
  {
    if events != [] && !events[|events| - 1].payload.ContextCompiled? { ActiveIsCompiled(events[..|events| - 1]); }
  }

  /** Nothing is gathered for a context that has not been compiled. */
  lemma {:induction false} SaidNeedsContext(events: seq<Event>, seqNo: nat)
    requires !CompiledAt(events, seqNo)
    ensures Said(events, seqNo) == ""
  {
    if events != [] {
      var front := events[..|events| - 1];
      ActiveIsCompiled(front);
      SaidNeedsContext(front, seqNo);
    }
  }

  lemma LastOfExists(g: Graph, run: string, events: seq<Event>)
    requires RunFacts(g, run, events)
    ensures LastOf(run, events) in g.nodes && OfRun(LastOf(run, events), run) && RunStart(run) in g.nodes
  {
    LastOfKnown(run, events);
    assert EntryOf(g, RunStart(run)) == Expected(events, RunStart(run));
    assert EntryOf(g, LastOf(run, events)) == Expected(events, LastOf(run, events));
  }

  lemma {:induction false} LastOfKnown(run: string, events: seq<Event>)
    ensures OfRun(LastOf(run, events), run) && Expected(events, LastOf(run, events)).Some?
  {
    if events != [] { LastOfKnown(run, events[..|events| - 1]); }
  }

  lemma {:induction false} LinkedGrows(edges: seq<Edge>, more: seq<Edge>, run: string, events: seq<Event>)
    requires Linked(edges, run, events) && edges <= more
    ensures Linked(more, run, events)
    decreases |events|
  {
    if events != [] { LinkedGrows(edges, more, run, events[..|events| - 1]); }
  }

  /** A run's facts survive whatever another run adds. */
  lemma OtherRunKept(before: Graph, after: Graph, run: string, other: string, events: seq<Event>)
    requires RunFacts(before, other, events) && OnlyRun(before, after, run) && run != other
    ensures RunFacts(after, other, events)
  {
    LinkedGrows(before.edges, after.edges, other, events);
  }

  // ---------------------------------------------------------------- what one more event changes in the log's reading

  /** An event with a node of its own sets that node's entry and no other. */
  lemma ExpectedAfterNode(run: string, events: seq<Event>, event: Event, id: NodeId)
    requires OfRun(id, run)
    requires event.payload.ContextCompiled? || event.payload.RunEnded? || event.payload.ToolEvent?
    requires !event.payload.ToolEvent? ==> Increasing(events + [event])
    ensures LastOf(run, events + [event]) != RunStart(run)
    ensures Expected(events + [event], id) ==
            if id == LastOf(run, events + [event]) then Some(Entry(Some(event.seqNo), "")) else Expected(events, id)
  {
    Appended(events, event);
    if !event.payload.ToolEvent? { FreshEvent(events, event); }
    if id == Context(run, event.seqNo) && event.payload.ContextCompiled? { SaidNeedsContext(events, event.seqNo); }
  }

  /** Any other event adds its text to the active context and changes nothing else. */
  lemma ExpectedAfterUpdate(run: string, events: seq<Event>, event: Event, id: NodeId)
    requires OfRun(id, run) && (event.payload.ContextUpdate? || event.payload.Ignored?)
    ensures Expected(events + [event], id) ==
            if event.payload.ContextUpdate? && ActiveAt(events).Some? && id == Context(run, ActiveAt(events).value)
            then Some(Entry(Some(ActiveAt(events).value), Said(events, ActiveAt(events).value) + event.payload.delta))
            else Expected(events, id)
  {
    Appended(events, event);
    ActiveIsCompiled(events);
  }

  lemma CursorKeeps(c: Cursor, checkpoints: seq<Checkpoint>, run: string, events: seq<Event>, event: Event)
    requires CursorFacts(c, run, events)
    ensures CursorFacts(AddEvent(c, checkpoints, run, event), run, events + [event])
  {
    Appended(events, event);
  }

  // ---------------------------------------------------------------- one event, case by case

  ghost predicate GraphKept(messages: seq<UserTurn>, before: Graph, after: Graph, run: string, events: seq<Event>) {
    Sound(messages, after) && RunFacts(after, run, events) && OnlyRun(before, after, run)
  }

  /** One node's entry after it, or another of the run, was set. */
  lemma RecordEntry(g: Graph, after: Graph, run: string, events: seq<Event>, event: Event, node: Node, id: NodeId)
    requires EntryOf(g, id) == Expected(events, id) && OfRun(id, run)
    requires Opens(events, event) && Increasing(events + [event]) && node.id == LastOf(run, events + [event])
    requires after.nodes == g.nodes[node.id := node] && node.seqNo == Some(event.seqNo) && node.text == ""
    ensures EntryOf(after, id) == Expected(events + [event], id)
  {
    ExpectedAfterNode(run, events, event, id);
  }

  lemma RecordLink(edges: seq<Edge>, run: string, events: seq<Event>, event: Event)
    requires Linked(edges, run, events)
    ensures Linked(edges + [Edge(LastOf(run, events), LastOf(run, events + [event]), Emits)], run, events + [event])
  {
    var edge := Edge(LastOf(run, events), LastOf(run, events + [event]), Emits);
    LinkedGrows(edges, edges + [edge], run, events);
    assert edge in edges + [edge];
  }

  lemma RecordNode(g: Graph, after: Graph, run: string, events: seq<Event>, event: Event, node: Node)
    requires Recorded(g, run, events) && Opens(events, event) && Increasing(events + [event])
    requires node.id == LastOf(run, events + [event])
    requires after.nodes == g.nodes[node.id := node] && node.seqNo == Some(event.seqNo) && node.text == ""
    ensures Recorded(after, run, events + [event])
  {
    forall id | OfRun(id, run) ensures EntryOf(after, id) == Expected(events + [event], id) {
      RecordEntry(g, after, run, events, event, node, id);
    }
  }

  /** An event that opens a node. */
  lemma OpenNode(messages: seq<UserTurn>, g: Graph, checkpoints: seq<Checkpoint>, run: string, events: seq<Event>,
                 event: Event, node: Node)
    requires Sound(messages, g) && RunFacts(g, run, events)
    requires Opens(events, event) && Increasing(events + [event])
    requires node.id == LastOf(run, events + [event]) && OfRun(node.id, run) && node.id !in g.nodes
    requires node.run == run && node.seqNo == Some(event.seqNo) && node.text == ""
    ensures GraphKept(messages, g, Hang(g, checkpoints, LastOf(run, events), node, Emits), run, events + [event])
  {
    var last := LastOf(run, events);
    var after := Hang(g, checkpoints, last, node, Emits);
    ExpectedAfterNode(run, events, event, node.id);
    LastOfExists(g, run, events);
    HangAdds(messages, g, checkpoints, last, node, Emits);
    RecordNode(g, after, run, events, event, after.nodes[node.id]);
    RecordLink(g.edges, run, events, event);
    HangIsSound(messages, g, checkpoints, run, last, node, Emits);
  }

  lemma HangIsSound(messages: seq<UserTurn>, g: Graph, checkpoints: seq<Checkpoint>, run: string, parent: NodeId,
                    node: Node, kind: EdgeKind)
    requires Sound(messages, g) && parent in g.nodes && OfRun(parent, run) && RunStart(run) in g.nodes
    requires node.id !in g.nodes && node.run == run && (OfRun(node.id, run) || node.id.Artifact?) && !node.id.RunStart?
    ensures Sound(messages, Hang(g, checkpoints, parent, node, kind))
  {
    HangKeepsForest(messages, g, checkpoints, parent, node, kind);
    HangKeepsRooted(messages, g, checkpoints, parent, node, kind);
  }

  lemma TouchRecorded(g: Graph, checkpoints: seq<Checkpoint>, run: string, events: seq<Event>, event: Event, node: Node)
    requires Recorded(g, run, events)
    requires Expected(events + [event], node.id) == EntryOf(AddNode(g, checkpoints, node), node.id)
    requires forall id :: OfRun(id, run) && id != node.id ==> Expected(events + [event], id) == Expected(events, id)
    ensures Recorded(AddNode(g, checkpoints, node), run, events + [event])
  {
    forall id | OfRun(id, run) && id != node.id
      ensures EntryOf(AddNode(g, checkpoints, node), id) == Expected(events + [event], id)
    {
      assert EntryOf(g, id) == Expected(events, id);
    }
  }

  /** An event that only touches a node: its event number or its text changes. */
  lemma TouchNode(messages: seq<UserTurn>, g: Graph, checkpoints: seq<Checkpoint>, run: string, events: seq<Event>,
                  event: Event, node: Node)
    requires Sound(messages, g) && RunFacts(g, run, events) && !Opens(events, event)
    requires node.id in g.nodes && OfRun(node.id, run) && node.run == run
    requires Expected(events + [event], node.id) == EntryOf(AddNode(g, checkpoints, node), node.id)
    requires forall id :: OfRun(id, run) && id != node.id ==> Expected(events + [event], id) == Expected(events, id)
    ensures GraphKept(messages, g, AddNode(g, checkpoints, node), run, events + [event])
  {
    TouchKeepsForest(messages, g, checkpoints, node);
    TouchKeepsRooted(messages, g, checkpoints, node);
    TouchRecorded(g, checkpoints, run, events, event, node);
    LinkedAsBefore(g.edges, run, events, event);
    TouchOnlyRun(g, checkpoints, run, node);
  }

  lemma LinkedAsBefore(edges: seq<Edge>, run: string, events: seq<Event>, event: Event)
    requires Linked(edges, run, events) && !Opens(events, event)
    ensures Linked(edges, run, events + [event])
  {
    Appended(events, event);
  }

  lemma TouchOnlyRun(g: Graph, checkpoints: seq<Checkpoint>, run: string, node: Node)
    requires node.id in g.nodes && OfRun(node.id, run)
    ensures OnlyRun(g, AddNode(g, checkpoints, node), run) && AddNode(g, checkpoints, node).edges == g.edges
  {
  }

  lemma OpenedIsNew(g: Graph, run: string, events: seq<Event>, event: Event)
    requires RunFacts(g, run, events) && Opens(events, event) && Increasing(events + [event])
    ensures LastOf(run, events + [event]) !in g.nodes && OfRun(LastOf(run, events + [event]), run)
  {
    Appended(events, event);
    FreshEvent(events, event);
    var id := LastOf(run, events + [event]);
    assert EntryOf(g, id) == Expected(events, id);
  }

  lemma ToolEventAgain(messages: seq<UserTurn>, g: Graph, checkpoints: seq<Checkpoint>, run: string,
                       events: seq<Event>, event: Event)
    requires Sound(messages, g) && RunFacts(g, run, events)
    requires event.payload.ToolEvent? && Latest(events, event.payload.call).Some?
    ensures var call := event.payload.call;
      GraphKept(messages, g, AddNode(g, checkpoints, ToolNode(Tool(run, call), run, event.seqNo, call)), run,
                events + [event])
  {
    var call := event.payload.call;
    var node := ToolNode(Tool(run, call), run, event.seqNo, call);
    ToolRecorded(g, checkpoints, run, events, event);
    ExpectedAfterTool(run, events, event);
    TouchNode(messages, g, checkpoints, run, events, event, node);
  }

  /** The node of a tool takes the number of its latest event. */
  lemma ToolRecorded(g: Graph, checkpoints: seq<Checkpoint>, run: string, events: seq<Event>, event: Event)
    requires Recorded(g, run, events)
    requires event.payload.ToolEvent? && Latest(events, event.payload.call).Some?
    ensures var call := event.payload.call;
      && Tool(run, call) in g.nodes
      && EntryOf(AddNode(g, checkpoints, ToolNode(Tool(run, call), run, event.seqNo, call)), Tool(run, call)) ==
           Some(Entry(Some(event.seqNo), ""))
  {
    var id := Tool(run, event.payload.call);
    assert EntryOf(g, id) == Expected(events, id);
  }

  lemma ExpectedAfterTool(run: string, events: seq<Event>, event: Event)
    requires event.payload.ToolEvent?
    ensures Expected(events + [event], Tool(run, event.payload.call)) == Some(Entry(Some(event.seqNo), ""))
    ensures forall id :: OfRun(id, run) && id != Tool(run, event.payload.call) ==>
              Expected(events + [event], id) == Expected(events, id)
    ensures LastOf(run, events + [event]) == Tool(run, event.payload.call)
  {
    Appended(events, event);
    forall id | OfRun(id, run)
      ensures Expected(events + [event], id) ==
                if id == LastOf(run, events + [event]) then Some(Entry(Some(event.seqNo), "")) else Expected(events, id)
    {
      ExpectedAfterNode(run, events, event, id);
    }
  }

  lemma UpdateEvent(messages: seq<UserTurn>, g: Graph, checkpoints: seq<Checkpoint>, run: string, events: seq<Event>,
                    event: Event)
    requires Sound(messages, g) && RunFacts(g, run, events)
    requires event.payload.ContextUpdate? && ActiveAt(events).Some?
    ensures var node := Node(Context(run, ActiveAt(events).value), run, None, None, event.payload.delta, None);
      GraphKept(messages, g, AddNode(g, checkpoints, node), run, events + [event])
  {
    Appended(events, event);
    ActiveIsCompiled(events);
    var node := Node(Context(run, ActiveAt(events).value), run, None, None, event.payload.delta, None);
    assert EntryOf(g, node.id) == Expected(events, node.id);
    forall id | OfRun(id, run) ensures Expected(events + [event], id) ==
      if id == node.id
      then Some(Entry(Some(ActiveAt(events).value), Said(events, ActiveAt(events).value) + event.payload.delta))
      else Expected(events, id)
    {
      ExpectedAfterUpdate(run, events, event, id);
    }
    TouchNode(messages, g, checkpoints, run, events, event, node);
  }

  lemma SilentEvent(messages: seq<UserTurn>, g: Graph, run: string, events: seq<Event>, event: Event)
    requires Sound(messages, g) && RunFacts(g, run, events)
    requires event.payload.Ignored? || (event.payload.ContextUpdate? && ActiveAt(events).None?)
    ensures GraphKept(messages, g, g, run, events + [event])
  {
    Appended(events, event);
    forall id | OfRun(id, run) ensures EntryOf(g, id) == Expected(events + [event], id) {
      ExpectedAfterUpdate(run, events, event, id);
    }
  }

  lemma EventKeeps(messages: seq<UserTurn>, c: Cursor, checkpoints: seq<Checkpoint>, run: string, events: seq<Event>,
                   event: Event)
    requires Sound(messages, c.graph) && RunFacts(c.graph, run, events) && CursorFacts(c, run, events)
    requires Increasing(events + [event])
    ensures GraphKept(messages, c.graph, AddEvent(c, checkpoints, run, event).graph, run, events + [event])
  {
    Appended(events, event);
    if Opens(events, event) {
      OpenedIsNew(c.graph, run, events, event);
      OpenNode(messages, c.graph, checkpoints, run, events, event,
               match event.payload
               case ContextCompiled => ContextNode(run, event.seqNo)
               case ToolEvent(call) => ToolNode(Tool(run, call), run, event.seqNo, call)
               case _ => TerminalNode(run, event.seqNo));
    } else if event.payload.ToolEvent? {
      ToolEventAgain(messages, c.graph, checkpoints, run, events, event);
    } else if event.payload.ContextUpdate? && c.active.Some? {
      UpdateEvent(messages, c.graph, checkpoints, run, events, event);
    } else {
      SilentEvent(messages, c.graph, run, events, event);
    }
  }

  // ---------------------------------------------------------------- a whole run

  lemma {:induction false} OnlyRunTwice(a: Graph, b: Graph, c: Graph, run: string)
    requires OnlyRun(a, b, run) && OnlyRun(b, c, run)
    ensures OnlyRun(a, c, run)
  {
    forall id | !OfRun(id, run) && id in a.nodes
      ensures c.nodes[id] == a.nodes[id]
    {
      assert b.nodes[id] == a.nodes[id];
    }
  }

  /** A log folded into the graph: every context, terminal and tool of the log has its node, with the
      right event number and text, hanging below the node of the event before; no other run is touched. */
  lemma {:induction false} EventsKeep(messages: seq<UserTurn>, c: Cursor, checkpoints: seq<Checkpoint>, run: string,
                                      events: seq<Event>)
    requires Sound(messages, c.graph) && RunFacts(c.graph, run, []) && CursorFacts(c, run, [])
    requires Increasing(events)
    ensures var after := AddEvents(c, checkpoints, run, events);
      GraphKept(messages, c.graph, after.graph, run, events) && CursorFacts(after, run, events)
    decreases |events|
  {
    if events != [] {
      var front, last := events[..|events| - 1], events[|events| - 1];
      assert front + [last] == events;
      var before := AddEvents(c, checkpoints, run, front);
      EventsKeep(messages, c, checkpoints, run, front);
      EventKeeps(messages, before, checkpoints, run, front, last);
      CursorKeeps(before, checkpoints, run, front, last);
      OnlyRunTwice(c.graph, before.graph, AddEvent(before, checkpoints, run, last).graph, run);
    }
  }

  lemma StartIsSound(messages: seq<UserTurn>, g: Graph, checkpoints: seq<Checkpoint>, run: string)
    requires Sound(messages, g) && RunStart(run) !in g.nodes
    requires FirstUser(messages, run).Some? ==> Message(FirstUser(messages, run).value) in g.nodes
    ensures Sound(messages, StartRun(g, checkpoints, run, FirstUser(messages, run)).graph)
  {
    var node := Node(RunStart(run), run, None, None, "", None);
    var turn := FirstUser(messages, run);
    if turn.Some? {
      HangKeepsForest(messages, g, checkpoints, Message(turn.value), node, StartsRun);
      HangKeepsRooted(messages, g, checkpoints, Message(turn.value), node, StartsRun);
    } else {
      PlantKeepsForest(messages, g, checkpoints, node);
      PlantKeepsRooted(messages, g, checkpoints, node);
    }
  }

  lemma StartRecords(messages: seq<UserTurn>, g: Graph, checkpoints: seq<Checkpoint>, run: string)
    requires Sound(messages, g) && forall id :: id in g.nodes ==> !OfRun(id, run)
    requires FirstUser(messages, run).Some? ==> Message(FirstUser(messages, run).value) in g.nodes
    ensures var c := StartRun(g, checkpoints, run, FirstUser(messages, run));
      && RunFacts(c.graph, run, []) && CursorFacts(c, run, []) && OnlyRun(g, c.graph, run)
      && (FirstUser(messages, run).Some? ==>
            Edge(Message(FirstUser(messages, run).value), RunStart(run), StartsRun) in c.graph.edges)
  {
    var node := Node(RunStart(run), run, None, None, "", None);
    var turn := FirstUser(messages, run);
    assert OfRun(node.id, run);
    if turn.Some? {
      HangAdds(messages, g, checkpoints, Message(turn.value), node, StartsRun);
    }
  }
}
