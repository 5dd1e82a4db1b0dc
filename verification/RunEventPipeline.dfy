/** The pipeline and its collaborators as objects whose fields are updated event by event. */
module RunEventPipeline {
  import opened Wrappers
  import opened RunEvents
  import opened RunEventContract

  class ToolCallResultBridge {
    var pending: seq<PendingCall>

    constructor ()
      ensures pending == []
    {
      pending := [];
    }

    method Observe(e: Event) returns (extras: seq<Event>)
      modifies this
      ensures pending == BridgeObserve(old(pending), e) && extras == []
    {
      if e.ToolEnd? && Truthy(e.id) {
        var name := if e.name.Some? && e.name.value != "" then e.name.value else "unknown";
        pending := pending + [PendingCall(Key(e.id), name, false)];
      }
      if e.ToolResult? && Truthy(e.id) {
        pending := MarkFirst(pending, Key(e.id));
      }
      extras := [];
    }

    method FlushPendingResults() returns (extras: seq<Event>)
      modifies this
      ensures extras == FlushedResults(old(pending)) && pending == AllMarked(old(pending))
    {
      extras := [];
      ghost var before := pending;
      for i := 0 to |pending|
        invariant |pending| == |before|
        invariant forall j :: 0 <= j < i ==> pending[j] == before[j].(hasResult := true)
        invariant forall j :: i <= j < |before| ==> pending[j] == before[j]
        invariant extras == FlushedResults(before[..i])
      {
        assert before[..i + 1][..i] == before[..i];
        if !pending[i].hasResult {
          extras := extras + [MissingResult(pending[i])];
          pending := pending[i := pending[i].(hasResult := true)];
        }
      }
      assert before[..|before|] == before;
      MarkedAndFlushed(before);
    }
  }

  class TaskPlanProjector {
    const read: TaskReader
    var toolNames: map<string, string>
    var lastPlan: Option<string>

    constructor (read: TaskReader)
      ensures this.read == read && toolNames == map[] && lastPlan == None
    {
      this.read := read;
      toolNames, lastPlan := map[], None;
    }

    method Observe(e: Event, ghost p: Pipeline) returns (projected: seq<Event>)
      requires p.toolNames == toolNames && p.lastPlan == lastPlan
      modifies this
      ensures ObserveTask(p, read, e) == (p.(toolNames := toolNames, lastPlan := lastPlan), projected)
    {
      projected := [];
      if e.ToolStart? && e.id.Text? && e.name.Some? {
        toolNames := toolNames[e.id.text := e.name.value];
        return;
      }
      if !(e.ToolResult? && e.id.Text? && e.content.Some?) {
        return;
      }
      var known := e.id.text in toolNames;
      var toolName := if known then toolNames[e.id.text] else "";
      toolNames := toolNames - {e.id.text};
      if !known || toolName !in TASK_TOOLS {
        return;
      }
      var tasks := read(e.content.value);
      if tasks.None? || lastPlan == tasks {
        return;
      }
      lastPlan := tasks;
      projected := [Plan(tasks.value)];
    }
  }

  class EventPipeline {
    const bridge: ToolCallResultBridge
    const projector: TaskPlanProjector
    var persisted: seq<Event>
    var sunk: seq<Event>
    var delivered: set<string>
    var projecting: bool

    ghost function Contents(): Pipeline
      reads this, bridge, projector
    {
      Pipeline(persisted, sunk, delivered, projecting, bridge.pending, projector.toolNames, projector.lastPlan)
    }

    constructor (prior: seq<Event>, read: TaskReader)
      ensures fresh(bridge) && fresh(projector) && projector.read == read
      ensures Contents() == Start(prior) && Contract(Contents())
    {
      bridge := new ToolCallResultBridge();
      projector := new TaskPlanProjector(read);
      persisted, sunk, delivered, projecting := prior, [], {}, false;
    }

    method Emit(e: Event)
      requires Contract(Contents())
      modifies this, bridge, projector
      ensures Contents() == RunEvents.Emit(old(Contents()), projector.read, e) && Contract(Contents())
    {
      EmitKeeps(Contents(), projector.read, e);
      EmitObserved(e, true);
    }

    method EmitObserved(e: Event, allowProjection: bool)
      modifies this, bridge, projector
      ensures Contents() == if allowProjection then RunEvents.Emit(old(Contents()), projector.read, e)
                            else Pass(old(Contents()), e)
      decreases allowProjection
    {
      if e.Terminal? {
        var missing := bridge.FlushPendingResults();
        DeliverInOrder(missing);
        assert Contents() == Flush(old(Contents()));
      }
      Deliver(e);
      var extras := bridge.Observe(e);
      DeliverInOrder(extras);
      assert Contents() == Pass(old(Contents()), e);
      if !allowProjection || projecting {
        return;
      }
      var projected := projector.Observe(e, Contents());
      if projected == [] {
        return;
      }
      projecting := true;
      ghost var observed := Contents();
      for i := 0 to |projected|
        invariant Contents() == PassAll(observed, projected[..i])
      {
        EmitObserved(projected[i], false);
        assert projected[..i + 1][..i] == projected[..i];
      }
      assert projected[..|projected|] == projected;
      projecting := false;
    }

    method DeliverInOrder(events: seq<Event>)
      modifies this
      ensures Contents() == DeliverAll(old(Contents()), events)
    {
      for i := 0 to |events|
        invariant Contents() == DeliverAll(old(Contents()), events[..i])
      {
        Deliver(events[i]);
        assert events[..i + 1][..i] == events[..i];
      }
      assert events[..|events|] == events;
    }

    /** A result whose string id was answered before goes nowhere; all else is stored, then sunk. */
    method Deliver(e: Event)
      modifies this
      ensures Contents() == RunEvents.Deliver(old(Contents()), e)
    {
      if e.ToolResult? && e.id.Text? && e.id.text != "" {
        if e.id.text in delivered {
          return;
        }
        delivered := delivered + {e.id.text};
      }
      if !Skipped(persisted, e) {
        persisted := persisted + [e];
      }
      sunk := sunk + [e];
    }
  }
}
