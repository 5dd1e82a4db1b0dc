/**
 Which checkpoint each node of the trace graph offers to go back to, said on the checkpoint rows and the event
 logs alone; and which turn begins a run.
 */
module TraceDagCheckpoints {
  import opened Wrappers
  import opened TraceDag
  import opened TraceDagForest
  import opened TraceDagRuns
  import opened TraceDagWhole

  // ---------------------------------------------------------------- reading the checkpoint rows

  ghost predicate AtEvent(c: Checkpoint, run: string, seqNo: nat) {
    c.run == run && c.seqNo == seqNo
  }

  ghost predicate OfCall(c: Checkpoint, run: string, call: string) {
    c.run == run && c.call == Some(call)
  }

  /** Row i is the last one stored for the tool call. */
  ghost predicate LastOfCall(checkpoints: seq<Checkpoint>, run: string, call: string, i: nat) {
    && i < |checkpoints| && OfCall(checkpoints[i], run, call)
    && forall j :: i < j < |checkpoints| ==> !OfCall(checkpoints[j], run, call)
  }

  /** Row i is the first one of the event. */
  ghost predicate FirstAtEvent(checkpoints: seq<Checkpoint>, run: string, seqNo: nat, i: nat) {
    && i < |checkpoints| && AtEvent(checkpoints[i], run, seqNo)
    && forall j :: 0 <= j < i ==> !AtEvent(checkpoints[j], run, seqNo)
  }

  /** Row i is the first one of the event that has this kind. */
  ghost predicate FirstOfKindAt(checkpoints: seq<Checkpoint>, run: string, seqNo: nat, kind: CheckpointKind, i: nat) {
    && i < |checkpoints| && AtEvent(checkpoints[i], run, seqNo) && checkpoints[i].kind == kind
    && forall j :: 0 <= j < i && AtEvent(checkpoints[j], run, seqNo) ==> checkpoints[j].kind != kind
  }

  ghost predicate HasCall(checkpoints: seq<Checkpoint>, run: string, call: string) {
    exists i :: 0 <= i < |checkpoints| && OfCall(checkpoints[i], run, call)
  }

  ghost predicate HasEvent(checkpoints: seq<Checkpoint>, run: string, seqNo: nat) {
    exists i :: 0 <= i < |checkpoints| && AtEvent(checkpoints[i], run, seqNo)
  }

  ghost predicate HasKind(checkpoints: seq<Checkpoint>, run: string, seqNo: nat, kind: CheckpointKind) {
    exists i :: 0 <= i < |checkpoints| && AtEvent(checkpoints[i], run, seqNo) && checkpoints[i].kind == kind
  }

  /** The kind of checkpoint a node prefers. */
  ghost function KindFor(id: NodeId): Option<CheckpointKind> {
    match id
    case Context(_, _) => Some(ContextCheckpoint)
    case Terminal(_, _) => Some(TerminalCheckpoint)
    case _ => None
  }

  /** The checkpoint of a node with this run, call and event: the last row of its tool call; or else, of its event,
      the first row of the kind the node prefers; or else the first row of its event. Without a run there is none. */
  ghost predicate Offers(checkpoints: seq<Checkpoint>, node: Node, found: Option<Checkpoint>) {
    if node.run == "" then found == None
    else if node.call.Some? && HasCall(checkpoints, node.run, node.call.value) then
      exists i: nat :: LastOfCall(checkpoints, node.run, node.call.value, i) && found == Some(checkpoints[i])
    else if node.seqNo.None? || !HasEvent(checkpoints, node.run, node.seqNo.value) then found == None
    else if KindFor(node.id).Some? && HasKind(checkpoints, node.run, node.seqNo.value, KindFor(node.id).value) then
      exists i: nat ::
        && FirstOfKindAt(checkpoints, node.run, node.seqNo.value, KindFor(node.id).value, i)
        && found == Some(checkpoints[i])
    else
      exists i: nat :: FirstAtEvent(checkpoints, node.run, node.seqNo.value, i) && found == Some(checkpoints[i])
  }

  lemma {:induction false} ToolCheckpointIs(checkpoints: seq<Checkpoint>, run: string, call: string)
    ensures ToolCheckpoint(checkpoints, run, call).Some? <==> HasCall(checkpoints, run, call)
    ensures ToolCheckpoint(checkpoints, run, call).Some? ==>
              exists i: nat :: LastOfCall(checkpoints, run, call, i)
                               && ToolCheckpoint(checkpoints, run, call) == Some(checkpoints[i])
  {
    if checkpoints != [] {
      var n := |checkpoints| - 1;
      var front := checkpoints[..n];
      if OfCall(checkpoints[n], run, call) {
        assert LastOfCall(checkpoints, run, call, n);
      } else {
        ToolCheckpointIs(front, run, call);
        if HasCall(checkpoints, run, call) {
          var i :| 0 <= i < |checkpoints| && OfCall(checkpoints[i], run, call);
          assert OfCall(front[i], run, call);
        }
        if i: nat :| LastOfCall(front, run, call, i) && ToolCheckpoint(front, run, call) == Some(front[i]) {
          assert OfCall(checkpoints[i], run, call) && LastOfCall(checkpoints, run, call, i);
        }
      }
    }
  }

  /** `rows` are exactly the rows of an event, in order; `at` says where they stand. */
  ghost predicate RowsAt(checkpoints: seq<Checkpoint>, run: string, seqNo: nat, rows: seq<Checkpoint>, at: seq<nat>) {
    && |at| == |rows| && (forall i, j :: 0 <= i < j < |at| ==> at[i] < at[j])
    && (forall k :: 0 <= k < |at| ==>
          at[k] < |checkpoints| && AtEvent(checkpoints[at[k]], run, seqNo) && rows[k] == checkpoints[at[k]])
    && (forall i: nat :: i < |checkpoints| && AtEvent(checkpoints[i], run, seqNo) ==> i in at)
  }

  lemma RowsAtWith(front: seq<Checkpoint>, last: Checkpoint, run: string, seqNo: nat, rows: seq<Checkpoint>,
                   at: seq<nat>)
    requires RowsAt(front, run, seqNo, rows, at)
    ensures if AtEvent(last, run, seqNo) then RowsAt(front + [last], run, seqNo, rows + [last], at + [|front|])
            else RowsAt(front + [last], run, seqNo, rows, at)
  {
    forall i: nat | i < |front| && AtEvent(front[i], run, seqNo)
      ensures i in at + [|front|]
    {
      assert i in at;
    }
  }

  lemma {:induction false} EventCheckpointsAre(checkpoints: seq<Checkpoint>, run: string, seqNo: nat)
    returns (at: seq<nat>)
    ensures RowsAt(checkpoints, run, seqNo, EventCheckpoints(checkpoints, run, seqNo), at)
  {
    at := [];
    if checkpoints != [] {
      var n := |checkpoints| - 1;
      var front, last := checkpoints[..n], checkpoints[n];
      var earlier := EventCheckpointsAre(front, run, seqNo);
      RowsAtWith(front, last, run, seqNo, EventCheckpoints(front, run, seqNo), earlier);
      assert checkpoints == front + [last];
      at := if AtEvent(last, run, seqNo) then earlier + [n] else earlier;
      assert EventCheckpoints(front, run, seqNo) + [] == EventCheckpoints(front, run, seqNo);
    }
  }

  lemma {:induction false} FirstOfKindIs(checkpoints: seq<Checkpoint>, kind: CheckpointKind)
    ensures FirstOfKind(checkpoints, kind) == None <==>
        forall i :: 0 <= i < |checkpoints| ==> checkpoints[i].kind != kind
    ensures FirstOfKind(checkpoints, kind).Some? ==>
              exists k: nat ::
                IsFirstOfKind(checkpoints, kind, k) && FirstOfKind(checkpoints, kind) == Some(checkpoints[k])
  {
    if checkpoints != [] {
      FirstOfKindIs(checkpoints[1..], kind);
      if checkpoints[0].kind == kind {
        assert IsFirstOfKind(checkpoints, kind, 0);
      } else if k: nat :| IsFirstOfKind(checkpoints[1..], kind, k)
                          && FirstOfKind(checkpoints[1..], kind) == Some(checkpoints[1..][k]) {
        assert forall j :: 1 <= j <= k ==> checkpoints[j] == checkpoints[1..][j - 1];
        assert IsFirstOfKind(checkpoints, kind, k + 1);
      }
    }
  }

  ghost predicate IsFirstOfKind(checkpoints: seq<Checkpoint>, kind: CheckpointKind, k: nat) {
    k < |checkpoints| && checkpoints[k].kind == kind && forall j :: 0 <= j < k ==> checkpoints[j].kind != kind
  }

  lemma PreferredAtEvent(checkpoints: seq<Checkpoint>, node: Node, at: seq<nat>)
    requires node.seqNo.Some?
    requires RowsAt(checkpoints, node.run, node.seqNo.value,
                    EventCheckpoints(checkpoints, node.run, node.seqNo.value), at)
    requires node.run != "" && (node.call.Some? ==> !HasCall(checkpoints, node.run, node.call.value))
    ensures Offers(checkpoints, node, Preferred(node.id, EventCheckpoints(checkpoints, node.run, node.seqNo.value)))
  {
    var rows, run, seqNo := EventCheckpoints(checkpoints, node.run, node.seqNo.value), node.run, node.seqNo.value;
    RowsIffEvent(checkpoints, run, seqNo, rows, at);
    if rows != [] {
      var i := PreferredRow(checkpoints, node.id, run, seqNo, rows, at);
      OffersRow(checkpoints, node, i);
    }
  }

  /** Where the preferred row of an event stands. */
  lemma PreferredRow(checkpoints: seq<Checkpoint>, id: NodeId, run: string, seqNo: nat, rows: seq<Checkpoint>,
                     at: seq<nat>) returns (i: nat)
    requires RowsAt(checkpoints, run, seqNo, rows, at) && rows != []
    ensures i < |checkpoints| && Preferred(id, rows) == Some(checkpoints[i])
    ensures if KindFor(id).Some? && HasKind(checkpoints, run, seqNo, KindFor(id).value)
            then FirstOfKindAt(checkpoints, run, seqNo, KindFor(id).value, i)
            else FirstAtEvent(checkpoints, run, seqNo, i)
  {
    FirstRow(checkpoints, run, seqNo, rows, at);
    i := at[0];
    if KindFor(id).Some? {
      var kind := KindFor(id).value;
      KindRow(checkpoints, run, seqNo, rows, at, kind);
      if FirstOfKind(rows, kind).Some? {
        i :| FirstOfKindAt(checkpoints, run, seqNo, kind, i) && FirstOfKind(rows, kind) == Some(checkpoints[i]);
      }
    }
  }

  lemma OffersRow(checkpoints: seq<Checkpoint>, node: Node, i: nat)
    requires node.run != "" && (node.call.Some? ==> !HasCall(checkpoints, node.run, node.call.value))
    requires node.seqNo.Some? && HasEvent(checkpoints, node.run, node.seqNo.value) && i < |checkpoints|
    requires var kind := KindFor(node.id);
      if kind.Some? && HasKind(checkpoints, node.run, node.seqNo.value, kind.value)
      then FirstOfKindAt(checkpoints, node.run, node.seqNo.value, kind.value, i)
      else FirstAtEvent(checkpoints, node.run, node.seqNo.value, i)
    ensures Offers(checkpoints, node, Some(checkpoints[i]))
  {
  }

  lemma RowsIffEvent(checkpoints: seq<Checkpoint>, run: string, seqNo: nat, rows: seq<Checkpoint>, at: seq<nat>)
    requires RowsAt(checkpoints, run, seqNo, rows, at)
    ensures rows != [] <==> HasEvent(checkpoints, run, seqNo)
  {
    if rows != [] { assert AtEvent(checkpoints[at[0]], run, seqNo); }
  }

  lemma FirstRow(checkpoints: seq<Checkpoint>, run: string, seqNo: nat, rows: seq<Checkpoint>, at: seq<nat>)
    requires RowsAt(checkpoints, run, seqNo, rows, at) && rows != []
    ensures FirstAtEvent(checkpoints, run, seqNo, at[0]) && rows[0] == checkpoints[at[0]]
  {
    assert forall k :: 0 <= k < |at| ==> at[k] >= at[0];
  }

  lemma KindRow(checkpoints: seq<Checkpoint>, run: string, seqNo: nat, rows: seq<Checkpoint>, at: seq<nat>,
                kind: CheckpointKind)
    requires RowsAt(checkpoints, run, seqNo, rows, at)
    ensures FirstOfKind(rows, kind).Some? <==> HasKind(checkpoints, run, seqNo, kind)
    ensures FirstOfKind(rows, kind).Some? ==>
              exists i: nat :: FirstOfKindAt(checkpoints, run, seqNo, kind, i)
                               && FirstOfKind(rows, kind) == Some(checkpoints[i])
  {
    FirstOfKindIs(rows, kind);
    if HasKind(checkpoints, run, seqNo, kind) {
      var i :| 0 <= i < |checkpoints| && AtEvent(checkpoints[i], run, seqNo) && checkpoints[i].kind == kind;
      var k :| 0 <= k < |at| && at[k] == i;
      assert rows[k].kind == kind;
    }
    if k: nat :| IsFirstOfKind(rows, kind, k) && FirstOfKind(rows, kind) == Some(rows[k]) {
      KindRowIsFirst(checkpoints, run, seqNo, rows, at, kind, k);
    }
  }

  lemma KindRowIsFirst(checkpoints: seq<Checkpoint>, run: string, seqNo: nat, rows: seq<Checkpoint>, at: seq<nat>,
                       kind: CheckpointKind, k: nat)
    requires RowsAt(checkpoints, run, seqNo, rows, at) && IsFirstOfKind(rows, kind, k)
    ensures at[k] < |checkpoints| && FirstOfKindAt(checkpoints, run, seqNo, kind, at[k])
    ensures rows[k] == checkpoints[at[k]]
  {
    assert forall m :: k <= m < |at| ==> at[m] >= at[k];
    forall j | 0 <= j < at[k] && AtEvent(checkpoints[j], run, seqNo)
      ensures checkpoints[j].kind != kind
    {
      var m :| 0 <= m < |at| && at[m] == j;
      assert rows[m].kind != kind;
    }
  }

  /** The lookup finds what the rows offer. */
  lemma ResolvedIsOffered(node: Node, checkpoints: seq<Checkpoint>)
    ensures Offers(checkpoints, node, ResolveCheckpoint(node, checkpoints))
  {
    if node.call.Some? { ToolCheckpointIs(checkpoints, node.run, node.call.value); }
    if node.run != "" && node.seqNo.Some? && (node.call.Some? ==> !HasCall(checkpoints, node.run, node.call.value)) {
      var at := EventCheckpointsAre(checkpoints, node.run, node.seqNo.value);
      PreferredAtEvent(checkpoints, node, at);
    }
  }

  // ---------------------------------------------------------------- what each node ends up with

  function IdOf(found: Option<Checkpoint>): Option<string> {
    if found.Some? then Some(found.value.id) else None
  }

  /** The node of a run that the log calls for, as it is first added. */
  function Bare(run: string, id: NodeId): Node {
    match id
    case Context(_, seqNo) => ContextNode(run, seqNo)
    case Terminal(_, seqNo) => TerminalNode(run, seqNo)
    case _ => Node(id, run, None, None, "", None)
  }

  /** The checkpoint the log and the rows give a node: a context's, a terminal's; a tool's is that of its latest
      event that has one. */
  function Given(checkpoints: seq<Checkpoint>, run: string, events: seq<Event>, id: NodeId): Option<string> {
    if !id.Tool? then IdOf(ResolveCheckpoint(Bare(run, id), checkpoints))
    else if events == [] then None
    else
      var last, front := events[|events| - 1], events[..|events| - 1];
      if last.payload != ToolEvent(id.call) then Given(checkpoints, run, front, id)
      else
        var found := ResolveCheckpoint(ToolNode(id, run, last.seqNo, id.call), checkpoints);
        if found.Some? then Some(found.value.id) else Given(checkpoints, run, front, id)
  }

  ghost predicate NodeGiven(g: Graph, checkpoints: seq<Checkpoint>, run: string, events: seq<Event>, id: NodeId)
    requires id in g.nodes
  {
    var node := g.nodes[id];
    && node.run == run && node.call == (if id.Tool? then Some(id.call) else None)
    && node.checkpoint == Given(checkpoints, run, events, id)
  }

  ghost predicate AllGiven(g: Graph, checkpoints: seq<Checkpoint>, run: string, events: seq<Event>) {
    forall id :: OfRun(id, run) && id in g.nodes ==> NodeGiven(g, checkpoints, run, events, id)
  }

  lemma GivenAfter(checkpoints: seq<Checkpoint>, run: string, events: seq<Event>, event: Event, id: NodeId)
    requires event.payload.ToolEvent? ==> id != Tool(run, event.payload.call)
    requires OfRun(id, run)
    ensures Given(checkpoints, run, events + [event], id) == Given(checkpoints, run, events, id)
  {
    assert (events + [event])[..|events|] == events;
  }

  /** A checkpoint depends on a node's id, run, event and call only. */
  lemma SameFound(a: Node, b: Node, checkpoints: seq<Checkpoint>)
    requires a.id == b.id && a.run == b.run && a.seqNo == b.seqNo && a.call == b.call
    ensures ResolveCheckpoint(a, checkpoints) == ResolveCheckpoint(b, checkpoints)
  {
  }

  /** What adding a node changes. */
  lemma AddedNode(g: Graph, checkpoints: seq<Checkpoint>, node: Node)
    ensures var after, next := AddNode(g, checkpoints, node),
        if node.id in g.nodes then Merge(g.nodes[node.id], node) else node;
      var found := ResolveCheckpoint(next, checkpoints);
      && after.nodes == g.nodes[node.id := Attached(next, found)]
      && after.checkpointNode == (if found.Some? then g.checkpointNode[found.value.id := node.id] else g.checkpointNode)
  {
  }

  /** The node an event adds or touches. */
  function NodeOf(run: string, event: Event, active: Option<NodeId>): Option<Node> {
    match event.payload
    case ContextCompiled => Some(ContextNode(run, event.seqNo))
    case RunEnded => Some(TerminalNode(run, event.seqNo))
    case ToolEvent(call) => Some(ToolNode(Tool(run, call), run, event.seqNo, call))
    case ContextUpdate(delta) => if active.Some? then Some(Node(active.value, run, None, None, delta, None)) else None
    case Ignored => None
  }

  lemma EventAdds(c: Cursor, checkpoints: seq<Checkpoint>, run: string, events: seq<Event>, event: Event)
    requires CursorFacts(c, run, events)
    ensures var after, node := AddEvent(c, checkpoints, run, event).graph, NodeOf(run, event, c.active);
      if node.None? then after == c.graph
      else after.nodes == AddNode(c.graph, checkpoints, node.value).nodes
           && after.checkpointNode == AddNode(c.graph, checkpoints, node.value).checkpointNode
  {
    if event.payload.ToolEvent? {
      var call := event.payload.call;
      assert call in c.tools ==> c.tools[call] == Tool(run, call);
      EdgeAddsNoNode(AddNode(c.graph, checkpoints, NodeOf(run, event, c.active).value),
                     Edge(c.last, Tool(run, call), Emits));
    }
  }

  lemma EdgeAddsNoNode(g: Graph, edge: Edge)
    ensures AddEdge(g, edge).nodes == g.nodes && AddEdge(g, edge).checkpointNode == g.checkpointNode
  {
  }

  lemma EventGives(c: Cursor, checkpoints: seq<Checkpoint>, run: string, events: seq<Event>, event: Event)
    requires RunFacts(c.graph, run, events) && CursorFacts(c, run, events)
    requires AllGiven(c.graph, checkpoints, run, events) && Increasing(events + [event])
    ensures AllGiven(AddEvent(c, checkpoints, run, event).graph, checkpoints, run, events + [event])
  {
    var after, longer := AddEvent(c, checkpoints, run, event).graph, events + [event];
    assert longer[..|events|] == events;
    forall id | OfRun(id, run) && id in after.nodes
      ensures NodeGiven(after, checkpoints, run, longer, id)
    {
      if id in c.graph.nodes { assert NodeGiven(c.graph, checkpoints, run, events, id); }
      if event.payload.ToolEvent? && id == Tool(run, event.payload.call) {
        ToolGives(c, checkpoints, run, events, event);
      } else {
        GivenAfter(checkpoints, run, events, event, id);
        OtherGives(c, checkpoints, run, events, event, id);
      }
    }
  }

  lemma ToolGives(c: Cursor, checkpoints: seq<Checkpoint>, run: string, events: seq<Event>, event: Event)
    requires event.payload.ToolEvent? && CursorFacts(c, run, events)
    requires RunFacts(c.graph, run, events)
    requires var id := Tool(run, event.payload.call);
      id in c.graph.nodes ==> NodeGiven(c.graph, checkpoints, run, events, id)
    ensures var id, after := Tool(run, event.payload.call), AddEvent(c, checkpoints, run, event).graph;
      id in after.nodes && NodeGiven(after, checkpoints, run, events + [event], id)
  {
    var id := Tool(run, event.payload.call);
    var node := ToolNode(id, run, event.seqNo, event.payload.call);
    assert (events + [event])[..|events|] == events;
    assert EntryOf(c.graph, id) == Expected(events, id);
    EventAdds(c, checkpoints, run, events, event);
    AddedNode(c.graph, checkpoints, node);
    if id in c.graph.nodes {
      SameFound(Merge(c.graph.nodes[id], node), node, checkpoints);
    } else {
      NoToolYet(checkpoints, run, events, event.payload.call);
    }
  }

  lemma {:induction false} NoToolYet(checkpoints: seq<Checkpoint>, run: string, events: seq<Event>, call: string)
    requires Latest(events, call).None?
    ensures Given(checkpoints, run, events, Tool(run, call)) == None
  {
    if events != [] { NoToolYet(checkpoints, run, events[..|events| - 1], call); }
  }

  lemma OtherGives(c: Cursor, checkpoints: seq<Checkpoint>, run: string, events: seq<Event>, event: Event, id: NodeId)
    requires RunFacts(c.graph, run, events) && CursorFacts(c, run, events) && Increasing(events + [event])
    requires OfRun(id, run) && id in AddEvent(c, checkpoints, run, event).graph.nodes
    requires event.payload.ToolEvent? ==> id != Tool(run, event.payload.call)
    requires id in c.graph.nodes ==> NodeGiven(c.graph, checkpoints, run, events, id)
    ensures NodeGiven(AddEvent(c, checkpoints, run, event).graph, checkpoints, run, events, id)
  {
    var node := NodeOf(run, event, c.active);
    EventAdds(c, checkpoints, run, events, event);
    if node.Some? { AddedNode(c.graph, checkpoints, node.value); }
    if node.Some? && node.value.id == id {
      if id in c.graph.nodes {
        TouchedAgain(c, checkpoints, run, events, event, id);
        SameFound(Merge(c.graph.nodes[id], node.value), Bare(run, id), checkpoints);
      } else {
        FreshIsBare(c, run, events, event, id);
      }
    }
  }

  /** Only an update meets a node again that is no tool's: its context, which has its event and no call. */
  lemma TouchedAgain(c: Cursor, checkpoints: seq<Checkpoint>, run: string, events: seq<Event>, event: Event, id: NodeId)
    requires RunFacts(c.graph, run, events) && CursorFacts(c, run, events) && Increasing(events + [event])
    requires !event.payload.ToolEvent? && OfRun(id, run) && id in c.graph.nodes
    requires NodeOf(run, event, c.active).Some? && NodeOf(run, event, c.active).value.id == id
    requires NodeGiven(c.graph, checkpoints, run, events, id)
    ensures var merged := Merge(c.graph.nodes[id], NodeOf(run, event, c.active).value);
      && event.payload.ContextUpdate? && id.Context?
      && merged.id == id && merged.run == run && merged.call == None && merged.seqNo == Bare(run, id).seqNo
  {
    assert EntryOf(c.graph, id) == Expected(events, id);
    assert (events + [event])[..|events|] == events;
    if event.payload.ContextUpdate? { ActiveIsCompiled(events); } else { OpenedIsNew(c.graph, run, events, event); }
  }

  lemma FreshIsBare(c: Cursor, run: string, events: seq<Event>, event: Event, id: NodeId)
    requires RunFacts(c.graph, run, events) && CursorFacts(c, run, events)
    requires !event.payload.ToolEvent? && OfRun(id, run) && id !in c.graph.nodes
    requires NodeOf(run, event, c.active).Some? && NodeOf(run, event, c.active).value.id == id
    ensures NodeOf(run, event, c.active).value == Bare(run, id) && !id.Tool?
  {
    assert EntryOf(c.graph, id) == Expected(events, id);
    if event.payload.ContextUpdate? { ActiveIsCompiled(events); }
  }

  lemma {:induction false} EventsGive(messages: seq<UserTurn>, c: Cursor, checkpoints: seq<Checkpoint>, run: string,
                                      events: seq<Event>)
    requires Sound(messages, c.graph) && RunFacts(c.graph, run, []) && CursorFacts(c, run, [])
    requires AllGiven(c.graph, checkpoints, run, []) && Increasing(events)
    ensures AllGiven(AddEvents(c, checkpoints, run, events).graph, checkpoints, run, events)
    decreases |events|
  {
    if events != [] {
      var front, last := events[..|events| - 1], events[|events| - 1];
      assert front + [last] == events;
      EventsKeep(messages, c, checkpoints, run, front);
      EventsGive(messages, c, checkpoints, run, front);
      EventGives(AddEvents(c, checkpoints, run, front), checkpoints, run, front, last);
    }
  }

  lemma RunGives(input: Input, g: Graph, run: string)
    requires WellKept(input) && Sound(input.messages, g)
    requires forall id :: id in g.nodes ==> !OfRun(id, run)
    requires forall id :: Message(id) in g.nodes <==> IsTurn(input.messages, id)
    ensures AllGiven(AddRun(g, input, run).graph, input.checkpoints, run, EventsOf(input, run))
  {
    StartGives(input, g, run);
    var start := StartRun(g, input.checkpoints, run, FirstUser(input.messages, run));
    EventsGive(input.messages, start, input.checkpoints, run, EventsOf(input, run));
  }

  ghost predicate RunsGiven(input: Input, g: Graph, runs: seq<string>) {
    forall run :: run in runs ==> AllGiven(g, input.checkpoints, run, EventsOf(input, run))
  }

  lemma OthersGiven(before: Graph, after: Graph, checkpoints: seq<Checkpoint>, run: string, other: string,
                    events: seq<Event>)
    requires OnlyRun(before, after, run) && other != run && AllGiven(before, checkpoints, other, events)
    ensures AllGiven(after, checkpoints, other, events)
  {
    forall id | OfRun(id, other) && id in after.nodes
      ensures NodeGiven(after, checkpoints, other, events, id)
    {
      assert !OfRun(id, run) && NodeGiven(before, checkpoints, other, events, id);
    }
  }

  lemma {:induction false} RunsGive(input: Input, runs: seq<string>)
    requires WellKept(input) && Distinct(runs)
    ensures RunsGiven(input, AddRuns(AddTurns(EMPTY, input.checkpoints, input.messages), input, runs).0, runs)
    decreases |runs|
  {
    if runs != [] {
      var front, run := runs[..|runs| - 1], runs[|runs| - 1];
      assert front + [run] == runs;
      RunsGive(input, front);
      RunsKeep(input, front);
      var before := AddRuns(AddTurns(EMPTY, input.checkpoints, input.messages), input, front).0;
      RunKeeps(input, before, run);
      RunGives(input, before, run);
      forall other | other in runs
        ensures AllGiven(AddRun(before, input, run).graph, input.checkpoints, other, EventsOf(input, other))
      {
        if other != run {
          OthersGiven(before, AddRun(before, input, run).graph, input.checkpoints, run, other, EventsOf(input, other));
        }
      }
    }
  }

  lemma LeavesStayGiven(before: Graph, after: Graph, checkpoints: seq<Checkpoint>, run: string, events: seq<Event>)
    requires Leaves(before, after) && AllGiven(before, checkpoints, run, events)
    ensures AllGiven(after, checkpoints, run, events)
  {
    forall id | OfRun(id, run) && id in after.nodes
      ensures NodeGiven(after, checkpoints, run, events, id)
    {
      assert id in before.nodes && NodeGiven(before, checkpoints, run, events, id);
    }
  }

  /** In the finished graph every node of a run stands under its run and call, and with the checkpoint its log and
      the rows give it. */
  lemma NodesOffer(input: Input, run: string, id: NodeId)
    requires WellKept(input) && OfRun(id, run) && id in Build(input).nodes
    ensures NodeGiven(Build(input), input.checkpoints, run, EventsOf(input, run), id)
  {
    BuildShows(input);
    LogsShow(input);
    RunsGive(input, VisibleRuns(input));
    FinishedKeeps(input);
    LeavesStayGiven(Logged(input).0, Build(input), input.checkpoints, run, EventsOf(input, run));
  }

  // ---------------------------------------------------------------- said on the rows

  lemma OfferedOnce(checkpoints: seq<Checkpoint>, node: Node, a: Option<Checkpoint>, b: Option<Checkpoint>)
    requires Offers(checkpoints, node, a) && Offers(checkpoints, node, b)
    ensures a == b
  {
    if node.run != "" && node.call.Some? && HasCall(checkpoints, node.run, node.call.value) {
      var i: nat :| LastOfCall(checkpoints, node.run, node.call.value, i) && a == Some(checkpoints[i]);
      var j: nat :| LastOfCall(checkpoints, node.run, node.call.value, j) && b == Some(checkpoints[j]);
    } else if node.run != "" && node.seqNo.Some? && HasEvent(checkpoints, node.run, node.seqNo.value) {
      var seqNo, kind := node.seqNo.value, KindFor(node.id);
      if kind.Some? && HasKind(checkpoints, node.run, seqNo, kind.value) {
        var i: nat :| FirstOfKindAt(checkpoints, node.run, seqNo, kind.value, i) && a == Some(checkpoints[i]);
        var j: nat :| FirstOfKindAt(checkpoints, node.run, seqNo, kind.value, j) && b == Some(checkpoints[j]);
      } else {
        var i: nat :| FirstAtEvent(checkpoints, node.run, seqNo, i) && a == Some(checkpoints[i]);
        var j: nat :| FirstAtEvent(checkpoints, node.run, seqNo, j) && b == Some(checkpoints[j]);
      }
    }
  }

  /** What the i-th event of a run finds for its node. */
  ghost predicate EventOffers(checkpoints: seq<Checkpoint>, run: string, event: Event, id: NodeId,
                              found: Option<Checkpoint>)
  {
    match event.payload
    case ContextCompiled => id == Context(run, event.seqNo) && Offers(checkpoints, ContextNode(run, event.seqNo), found)
    case RunEnded => id == Terminal(run, event.seqNo) && Offers(checkpoints, TerminalNode(run, event.seqNo), found)
    case ToolEvent(call) => id == Tool(run, call) && Offers(checkpoints, ToolNode(id, run, event.seqNo, call), found)
    case _ => false
  }

  /** The checkpoint of a node is that of its latest event that has one. */
  ghost predicate LatestOffer(checkpoints: seq<Checkpoint>, run: string, events: seq<Event>, id: NodeId,
                              checkpoint: Option<string>)
  {
    match checkpoint
    case None => forall i, c :: 0 <= i < |events| ==> !EventOffers(checkpoints, run, events[i], id, Some(c))
    case Some(name) =>
      exists i, c ::
        && 0 <= i < |events| && EventOffers(checkpoints, run, events[i], id, Some(c)) && c.id == name
        && forall j, d :: i < j < |events| ==> !EventOffers(checkpoints, run, events[j], id, Some(d))
  }

  lemma {:induction false} ToolOffer(checkpoints: seq<Checkpoint>, run: string, events: seq<Event>, call: string)
    ensures LatestOffer(checkpoints, run, events, Tool(run, call), Given(checkpoints, run, events, Tool(run, call)))
  {
    if events != [] {
      var n, id := |events| - 1, Tool(run, call);
      var front, last := events[..n], events[n];
      ToolOffer(checkpoints, run, front, call);
      var found := ResolveCheckpoint(ToolNode(id, run, last.seqNo, call), checkpoints);
      ResolvedIsOffered(ToolNode(id, run, last.seqNo, call), checkpoints);
      if last.payload == ToolEvent(call) && found.Some? {
        assert EventOffers(checkpoints, run, events[n], id, found);
      } else {
        forall c
          ensures !EventOffers(checkpoints, run, last, id, Some(c))
        {
          if EventOffers(checkpoints, run, last, id, Some(c)) {
            OfferedOnce(checkpoints, ToolNode(id, run, last.seqNo, call), found, Some(c));
          }
        }
        OfferStays(checkpoints, run, front, last, id, Given(checkpoints, run, front, id));
        assert events == front + [last];
      }
    }
  }

  lemma OfferStays(checkpoints: seq<Checkpoint>, run: string, events: seq<Event>, last: Event, id: NodeId,
                   checkpoint: Option<string>)
    requires LatestOffer(checkpoints, run, events, id, checkpoint)
    requires forall c :: !EventOffers(checkpoints, run, last, id, Some(c))
    ensures LatestOffer(checkpoints, run, events + [last], id, checkpoint)
  {
    var longer := events + [last];
    if checkpoint.Some? {
      var i, c :| 0 <= i < |events| && EventOffers(checkpoints, run, events[i], id, Some(c)) && c.id == checkpoint.value
                  && forall j, d :: i < j < |events| ==> !EventOffers(checkpoints, run, events[j], id, Some(d));
      assert EventOffers(checkpoints, run, longer[i], id, Some(c));
    }
  }

  /** In the finished graph every node of a run stands under its run and call. A context or terminal node has the
      checkpoint the rows offer for its event, a tool's node that of the latest event of its call that has one, and
      a run's start none. */
  lemma NodesOfferRows(input: Input, run: string, id: NodeId)
    requires WellKept(input) && OfRun(id, run) && id in Build(input).nodes
    ensures var node, checkpoints := Build(input).nodes[id], input.checkpoints;
      && node.run == run && node.call == (if id.Tool? then Some(id.call) else None)
      && match id
         case Tool(_, _) => LatestOffer(checkpoints, run, EventsOf(input, run), id, node.checkpoint)
         case Context(_, seqNo) =>
           exists found :: Offers(checkpoints, ContextNode(run, seqNo), found) && node.checkpoint == IdOf(found)
         case Terminal(_, seqNo) =>
           exists found :: Offers(checkpoints, TerminalNode(run, seqNo), found) && node.checkpoint == IdOf(found)
         case _ => node.checkpoint == None
  {
    NodesOffer(input, run, id);
    if id.Tool? {
      ToolOffer(input.checkpoints, run, EventsOf(input, run), id.call);
    } else {
      ResolvedIsOffered(Bare(run, id), input.checkpoints);
    }
  }

  // ---------------------------------------------------------------- which turn begins a run

  /** A run is begun by the first user message of its own, if it has any. */
  lemma {:induction false} FirstUserIs(messages: seq<UserTurn>, run: string)
    ensures FirstUser(messages, run) == None <==>
        forall i :: 0 <= i < |messages| ==> !(messages[i].isUser && messages[i].run == run)
    ensures FirstUser(messages, run).Some? ==>
              exists i :: 0 <= i < |messages| && messages[i].isUser && messages[i].run == run
                          && FirstUser(messages, run) == Some(messages[i].id)
                          && forall j :: 0 <= j < i ==> !(messages[j].isUser && messages[j].run == run)
  {
    if messages != [] {
      var n := |messages| - 1;
      FirstUserIs(messages[..n], run);
      assert forall i :: 0 <= i < n ==> messages[..n][i] == messages[i];
    }
  }

  // ---------------------------------------------------------------- where branches hang

  /** The checkpoint was found for the node at one of the run's events. */
  ghost predicate FoundFor(checkpoints: seq<Checkpoint>, run: string, events: seq<Event>, id: NodeId, name: string) {
    exists i, c :: 0 <= i < |events| && EventOffers(checkpoints, run, events[i], id, Some(c)) && c.id == name
  }

  lemma FoundAfter(checkpoints: seq<Checkpoint>, run: string, events: seq<Event>, event: Event, id: NodeId,
                   name: string)
    ensures FoundFor(checkpoints, run, events + [event], id, name) <==>
        FoundFor(checkpoints, run, events, id, name)
        || exists c :: EventOffers(checkpoints, run, event, id, Some(c)) && c.id == name
  {
    var longer := events + [event];
    if FoundFor(checkpoints, run, events, id, name) {
      var i, c :| 0 <= i < |events| && EventOffers(checkpoints, run, events[i], id, Some(c)) && c.id == name;
      assert EventOffers(checkpoints, run, longer[i], id, Some(c));
    }
    if c :| EventOffers(checkpoints, run, event, id, Some(c)) && c.id == name {
      assert EventOffers(checkpoints, run, longer[|events|], id, Some(c));
    }
  }

  /** The checkpoint map knows what was known before and exactly what the run's events found besides, each name
      with a node it was found for. */
  ghost predicate MapFollows(before: map<string, NodeId>, after: map<string, NodeId>, checkpoints: seq<Checkpoint>,
                             run: string, events: seq<Event>)
  {
    && (forall name :: name in before ==> name in after)
    && (forall id, name :: FoundFor(checkpoints, run, events, id, name) ==> name in after)
    && (forall name :: name in after ==>
          || (name in before && after[name] == before[name])
          || FoundFor(checkpoints, run, events, after[name], name))
  }

  /** What an event adds to the map. */
  lemma EventMaps(c: Cursor, checkpoints: seq<Checkpoint>, run: string, events: seq<Event>, event: Event)
    requires RunFacts(c.graph, run, events) && CursorFacts(c, run, events)
    requires AllGiven(c.graph, checkpoints, run, events) && Increasing(events + [event])
    requires event.payload.ContextCompiled? || event.payload.RunEnded? || event.payload.ToolEvent?
    ensures var was, now, id := c.graph.checkpointNode, AddEvent(c, checkpoints, run, event).graph.checkpointNode,
        LastOf(run, events + [event]);
      exists found ::
        && EventOffers(checkpoints, run, event, id, found)
        && now == if found.Some? then was[found.value.id := id] else was
  {
    assert (events + [event])[..|events|] == events;
    var id, node := LastOf(run, events + [event]), NodeOf(run, event, c.active).value;
    var found := ResolveCheckpoint(node, checkpoints);
    ResolvedIsOffered(node, checkpoints);
    EventAdds(c, checkpoints, run, events, event);
    AddedNode(c.graph, checkpoints, node);
    if id in c.graph.nodes {
      if !event.payload.ToolEvent? { OpenedIsNew(c.graph, run, events, event); }
      assert NodeGiven(c.graph, checkpoints, run, events, id);
      SameFound(Merge(c.graph.nodes[id], node), node, checkpoints);
    }
    assert EventOffers(checkpoints, run, event, id, found);
  }

  /** An update finds again what its context found. */
  lemma UpdateMaps(c: Cursor, checkpoints: seq<Checkpoint>, run: string, events: seq<Event>, event: Event)
    requires RunFacts(c.graph, run, events) && CursorFacts(c, run, events)
    requires AllGiven(c.graph, checkpoints, run, events)
    requires event.payload.ContextUpdate? || event.payload.Ignored?
    ensures var was, now := c.graph.checkpointNode, AddEvent(c, checkpoints, run, event).graph.checkpointNode;
      now == was || exists id, name ::
        FoundFor(checkpoints, run, events, id, name) && now == was[name := id]
  {
    EventAdds(c, checkpoints, run, events, event);
    if event.payload.ContextUpdate? && c.active.Some? {
      ActiveIsCompiled(events);
      var id := c.active.value;
      var node, found := NodeOf(run, event, c.active).value, ResolveCheckpoint(Bare(run, id), checkpoints);
      assert EntryOf(c.graph, id) == Expected(events, id) && NodeGiven(c.graph, checkpoints, run, events, id);
      AddedNode(c.graph, checkpoints, node);
      SameFound(Merge(c.graph.nodes[id], node), Bare(run, id), checkpoints);
      ResolvedIsOffered(Bare(run, id), checkpoints);
      if found.Some? { CompiledFinds(checkpoints, run, events, id.seqNo, found); }
    }
  }

  lemma {:induction false} CompiledFinds(checkpoints: seq<Checkpoint>, run: string, events: seq<Event>, seqNo: nat,
                                         found: Option<Checkpoint>)
    requires CompiledAt(events, seqNo) && Offers(checkpoints, ContextNode(run, seqNo), found) && found.Some?
    ensures FoundFor(checkpoints, run, events, Context(run, seqNo), found.value.id)
  {
    var n := |events| - 1;
    if events[n].seqNo == seqNo && events[n].payload.ContextCompiled? {
      assert EventOffers(checkpoints, run, events[n], Context(run, seqNo), found);
    } else {
      CompiledFinds(checkpoints, run, events[..n], seqNo, found);
      FoundAfter(checkpoints, run, events[..n], events[n], Context(run, seqNo), found.value.id);
      assert events == events[..n] + [events[n]];
    }
  }

  lemma OffersNode(checkpoints: seq<Checkpoint>, run: string, event: Event, id: NodeId, a: Option<Checkpoint>,
                   b: Option<Checkpoint>)
    requires EventOffers(checkpoints, run, event, id, a) && EventOffers(checkpoints, run, event, id, b)
    ensures a == b
  {
    OfferedOnce(checkpoints, match event.payload
      case ContextCompiled => ContextNode(run, event.seqNo)
      case ToolEvent(call) => ToolNode(id, run, event.seqNo, call)
      case _ => TerminalNode(run, event.seqNo), a, b);
  }

  lemma EventFollows(c: Cursor, base: map<string, NodeId>, checkpoints: seq<Checkpoint>, run: string,
                     events: seq<Event>, event: Event)
    requires RunFacts(c.graph, run, events) && CursorFacts(c, run, events)
    requires AllGiven(c.graph, checkpoints, run, events) && Increasing(events + [event])
    requires MapFollows(base, c.graph.checkpointNode, checkpoints, run, events)
    ensures MapFollows(base, AddEvent(c, checkpoints, run, event).graph.checkpointNode, checkpoints, run,
                       events + [event])
  {
    var was, now := c.graph.checkpointNode, AddEvent(c, checkpoints, run, event).graph.checkpointNode;
    if event.payload.ContextUpdate? || event.payload.Ignored? {
      UpdateMaps(c, checkpoints, run, events, event);
      MapStays(base, was, now, checkpoints, run, events, event);
    } else {
      EventMaps(c, checkpoints, run, events, event);
      var last := LastOf(run, events + [event]);
      var found :| EventOffers(checkpoints, run, event, last, found)
                   && now == if found.Some? then was[found.value.id := last] else was;
      MapGrows(base, was, now, checkpoints, run, events, event, last, found);
    }
  }

  lemma MapStays(base: map<string, NodeId>, was: map<string, NodeId>, now: map<string, NodeId>,
                 checkpoints: seq<Checkpoint>, run: string, events: seq<Event>, event: Event)
    requires MapFollows(base, was, checkpoints, run, events)
    requires event.payload.ContextUpdate? || event.payload.Ignored?
    requires now == was || exists id, name :: FoundFor(checkpoints, run, events, id, name) && now == was[name := id]
    ensures MapFollows(base, now, checkpoints, run, events + [event])
  {
    forall id, name
      ensures FoundFor(checkpoints, run, events + [event], id, name) <==> FoundFor(checkpoints, run, events, id, name)
    {
      FoundAfter(checkpoints, run, events, event, id, name);
    }
  }

  lemma MapGrows(base: map<string, NodeId>, was: map<string, NodeId>, now: map<string, NodeId>,
                 checkpoints: seq<Checkpoint>, run: string, events: seq<Event>, event: Event, last: NodeId,
                 found: Option<Checkpoint>)
    requires MapFollows(base, was, checkpoints, run, events)
    requires EventOffers(checkpoints, run, event, last, found)
    requires now == if found.Some? then was[found.value.id := last] else was
    ensures MapFollows(base, now, checkpoints, run, events + [event])
  {
    forall id, name | FoundFor(checkpoints, run, events + [event], id, name)
      ensures name in now
    {
      FoundAfter(checkpoints, run, events, event, id, name);
      if c :| EventOffers(checkpoints, run, event, id, Some(c)) && c.id == name {
        assert id == last;
        OffersNode(checkpoints, run, event, last, found, Some(c));
      }
    }
    forall name | name in now
      ensures (name in base && now[name] == base[name]) || FoundFor(checkpoints, run, events + [event], now[name], name)
    {
      FoundAfter(checkpoints, run, events, event, now[name], name);
      if found.Some? && name == found.value.id {
        assert EventOffers(checkpoints, run, event, now[name], Some(found.value));
      }
    }
  }

  lemma {:induction false} EventsFollow(messages: seq<UserTurn>, c: Cursor, checkpoints: seq<Checkpoint>, run: string,
                                        events: seq<Event>)
    requires Sound(messages, c.graph) && RunFacts(c.graph, run, []) && CursorFacts(c, run, [])
    requires AllGiven(c.graph, checkpoints, run, []) && Increasing(events)
    ensures MapFollows(c.graph.checkpointNode, AddEvents(c, checkpoints, run, events).graph.checkpointNode, checkpoints,
                       run, events)
    decreases |events|
  {
    if events != [] {
      var front, last := events[..|events| - 1], events[|events| - 1];
      assert front + [last] == events;
      EventsKeep(messages, c, checkpoints, run, front);
      EventsGive(messages, c, checkpoints, run, front);
      EventsFollow(messages, c, checkpoints, run, front);
      EventFollows(AddEvents(c, checkpoints, run, front), c.graph.checkpointNode, checkpoints, run, front, last);
    }
  }

  lemma StartGives(input: Input, g: Graph, run: string)
    requires WellKept(input) && Sound(input.messages, g)
    requires forall id :: id in g.nodes ==> !OfRun(id, run)
    requires forall id :: Message(id) in g.nodes <==> IsTurn(input.messages, id)
    ensures var c := StartRun(g, input.checkpoints, run, FirstUser(input.messages, run));
      && Sound(input.messages, c.graph) && RunFacts(c.graph, run, []) && CursorFacts(c, run, [])
      && AllGiven(c.graph, input.checkpoints, run, []) && c.graph.checkpointNode == g.checkpointNode
  {
    FirstUserIsTurn(input.messages, run);
    StartIsSound(input.messages, g, input.checkpoints, run);
    StartRecords(input.messages, g, input.checkpoints, run);
    StartAdds(g, input.checkpoints, run, FirstUser(input.messages, run));
  }

  lemma StartAdds(g: Graph, checkpoints: seq<Checkpoint>, run: string, turn: Option<string>)
    requires forall id :: id in g.nodes ==> !OfRun(id, run)
    ensures var after := StartRun(g, checkpoints, run, turn).graph;
      AllGiven(after, checkpoints, run, []) && after.checkpointNode == g.checkpointNode
  {
    var after, node := StartRun(g, checkpoints, run, turn).graph, Bare(run, RunStart(run));
    AddedNode(g, checkpoints, node);
    forall id | OfRun(id, run) && id in after.nodes
      ensures NodeGiven(after, checkpoints, run, [], id)
    {
      assert id == RunStart(run);
    }
  }

  /** The checkpoints the graph knows are exactly those found for some node of the runs, each with such a node. */
  ghost predicate MapIs(input: Input, checkpointNode: map<string, NodeId>, runs: seq<string>) {
    && (forall run, id, name :: run in runs && FoundFor(input.checkpoints, run, EventsOf(input, run), id, name) ==>
          name in checkpointNode)
    && (forall name :: name in checkpointNode ==> exists run ::
          run in runs && FoundFor(input.checkpoints, run, EventsOf(input, run), checkpointNode[name], name))
  }

  /** The nodes of user messages carry no event, call, text or checkpoint. */
  ghost predicate AllBare(g: Graph) {
    g.checkpointNode == map[]
    && forall id :: id in g.nodes ==> g.nodes[id] == Node(id, g.nodes[id].run, None, None, "", None)
  }

  /** Adding a user message writes its node and no other. */
  lemma TurnWrites(g: Graph, checkpoints: seq<Checkpoint>, turn: UserTurn)
    requires AllBare(g)
    ensures var after := AddNode(g, checkpoints, TurnNode(turn));
      AllBare(after) && after.nodes == g.nodes[Message(turn.id) := TurnNode(turn)]
  {
    var node := TurnNode(turn);
    AddedNode(g, checkpoints, node);
    if node.id in g.nodes {
      assert g.nodes[node.id].text + node.text == "";
      assert Merge(g.nodes[node.id], node) == node;
    }
  }

  lemma {:induction false} TurnsAreBare(checkpoints: seq<Checkpoint>, messages: seq<UserTurn>)
    ensures AllBare(AddTurns(EMPTY, checkpoints, messages))
  {
    if messages != [] {
      var front, last := messages[..|messages| - 1], messages[|messages| - 1];
      TurnsAreBare(checkpoints, front);
      TurnWrites(AddTurns(EMPTY, checkpoints, front), checkpoints, last);
    }
  }

  lemma MapWith(input: Input, was: map<string, NodeId>, now: map<string, NodeId>, runs: seq<string>, run: string)
    requires MapIs(input, was, runs) && MapFollows(was, now, input.checkpoints, run, EventsOf(input, run))
    ensures MapIs(input, now, runs + [run])
  {
    forall name | name in now
      ensures exists r :: r in runs + [run] && FoundFor(input.checkpoints, r, EventsOf(input, r), now[name], name)
    {
      if FoundFor(input.checkpoints, run, EventsOf(input, run), now[name], name) {
        assert run in runs + [run];
      } else {
        var r :| r in runs && FoundFor(input.checkpoints, r, EventsOf(input, r), was[name], name);
        assert r in runs + [run];
      }
    }
  }

  lemma {:induction false} RunsMap(input: Input, runs: seq<string>)
    requires WellKept(input) && Distinct(runs)
    ensures var g := AddRuns(AddTurns(EMPTY, input.checkpoints, input.messages), input, runs).0;
      MapIs(input, g.checkpointNode, runs)
    decreases |runs|
  {
    TurnsAreBare(input.checkpoints, input.messages);
    if runs != [] {
      var front, run := runs[..|runs| - 1], runs[|runs| - 1];
      assert front + [run] == runs;
      RunsMap(input, front);
      RunsKeep(input, front);
      var before := AddRuns(AddTurns(EMPTY, input.checkpoints, input.messages), input, front).0;
      StartGives(input, before, run);
      EventsFollow(input.messages, StartRun(before, input.checkpoints, run, FirstUser(input.messages, run)),
                   input.checkpoints, run, EventsOf(input, run));
      MapWith(input, before.checkpointNode, AddRun(before, input, run).graph.checkpointNode, front, run);
    }
  }

  lemma {:induction false} EachHangs(g: Graph, branches: seq<Branch>, k: nat)
    requires BranchesHang(g, branches) && k < |branches|
    ensures BranchHangs(g, branches[k])
    decreases |branches|
  {
    if k < |branches| - 1 { EachHangs(g, branches[..|branches| - 1], k); }
  }

  /** A branch is shown if and only if it forked from a checkpoint that was found for a node of a visible run, and then
      it hangs below such a node. */
  lemma BranchShownIff(input: Input, k: nat)
    requires WellKept(input) && k < |input.branches|
    ensures var g, branch := Build(input), input.branches[k];
      && (BranchNode(branch.id) in g.nodes <==>
            branch.forkCheckpoint.Some? && exists run, id ::
              run in VisibleRuns(input)
              && FoundFor(input.checkpoints, run, EventsOf(input, run), id, branch.forkCheckpoint.value))
      && (BranchNode(branch.id) in g.nodes ==> exists run, id ::
            && run in VisibleRuns(input)
            && FoundFor(input.checkpoints, run, EventsOf(input, run), id, branch.forkCheckpoint.value)
            && Edge(id, BranchNode(branch.id), BranchesFrom) in g.edges)
  {
    var runs, g := VisibleRuns(input), Build(input);
    BuildShows(input);
    LogsShow(input);
    RunsMap(input, runs);
    FinishedKeeps(input);
    EachHangs(g, input.branches, k);
  }

  /** Row i is the last user message with this id. */
  ghost predicate LastTurn(messages: seq<UserTurn>, id: string, i: nat) {
    && i < |messages| && messages[i].isUser && messages[i].id == id
    && forall j :: i < j < |messages| ==> !(messages[j].isUser && messages[j].id == id)
  }

  /** The node of a user message stands as its last row says. */
  ghost predicate TurnStands(g: Graph, messages: seq<UserTurn>, id: string) {
    Message(id) in g.nodes ==> exists i: nat ::
      LastTurn(messages, id, i) && g.nodes[Message(id)] == Node(Message(id), messages[i].run, None, None, "", None)
  }

  lemma {:induction false} TurnAdded(checkpoints: seq<Checkpoint>, messages: seq<UserTurn>, id: string)
    ensures TurnStands(AddTurns(EMPTY, checkpoints, messages), messages, id)
  {
    if messages != [] {
      var n := |messages| - 1;
      var front, last := messages[..n], messages[n];
      var before, after := AddTurns(EMPTY, checkpoints, front), AddTurns(EMPTY, checkpoints, messages);
      TurnAdded(checkpoints, front, id);
      TurnsAreBare(checkpoints, front);
      TurnWrites(before, checkpoints, last);
      if last.isUser && last.id == id {
        assert LastTurn(messages, id, n);
      } else if Message(id) in after.nodes {
        var i: nat :| LastTurn(front, id, i)
                      && before.nodes[Message(id)] == Node(Message(id), front[i].run, None, None, "", None);
        assert forall j :: 0 <= j < n ==> front[j] == messages[j];
        assert LastTurn(messages, id, i);
      }
    }
  }

  lemma {:induction false} RunsKeepTurn(input: Input, runs: seq<string>, id: string)
    requires WellKept(input) && Distinct(runs)
    ensures var turns := AddTurns(EMPTY, input.checkpoints, input.messages);
      var g := AddRuns(turns, input, runs).0;
      Message(id) in g.nodes ==> Message(id) in turns.nodes && g.nodes[Message(id)] == turns.nodes[Message(id)]
    decreases |runs|
  {
    if runs != [] {
      var front, run := runs[..|runs| - 1], runs[|runs| - 1];
      assert front + [run] == runs;
      RunsKeepTurn(input, front, id);
      RunsKeep(input, front);
      var before := AddRuns(AddTurns(EMPTY, input.checkpoints, input.messages), input, front).0;
      RunKeeps(input, before, run);
      assert !OfRun(Message(id), run);
    }
  }

  /** The finished graph has the messages' and runs' nodes as they were before artifacts and branches. */
  lemma FinishedKeeps(input: Input)
    requires WellKept(input)
    ensures var logged, g := Logged(input).0, Build(input); Leaves(logged, g)
  {
    var runs := VisibleRuns(input);
    LogsShow(input);
    var (logged, lasts) := Logged(input);
    AllArtifactsKeep(input, logged, lasts, runs);
    var full := AddAllArtifacts(logged, input, runs, lasts);
    BranchesKeep(input.messages, full, input.checkpoints, input.branches);
    LeavesTwice(logged, full, Build(input));
  }

  /** In the finished graph too: a user message's node names the run its last row names, and no event, call or
      checkpoint. */
  lemma TurnsShown(input: Input, id: string)
    requires WellKept(input)
    ensures TurnStands(Build(input), input.messages, id)
  {
    LogsShow(input);
    FinishedKeeps(input);
    TurnAdded(input.checkpoints, input.messages, id);
    RunsKeepTurn(input, VisibleRuns(input), id);
  }
}
