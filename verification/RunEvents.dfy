/**
 One ordered pipeline for a run's events: persist, track tool results, deliver to the sink, and feed
 plan snapshots derived from task-tool results back through itself.
 */
module RunEvents {
  import opened Wrappers

  /** A `toolCallId` as it arrives: missing (or any falsy value), a string, or some other value that
      only has a rendering. What renders as nothing counts as missing. */
  datatype CallId = Missing | Text(text: string) | Raw(rendering: string)

  datatype Event =
    | ToolStart(id: CallId, name: Option<string>)
    | ToolEnd(id: CallId, name: Option<string>)
    | ToolResult(id: CallId, name: Option<string>, content: Option<string>)
    | Terminal(failed: bool)
    | Protocol(eventId: string, body: string)
    | Plan(tasks: string)
    | Other(payload: string)

  datatype PendingCall = PendingCall(key: string, name: string, hasResult: bool)

  /** `persisted` is the run's stored log, `sunk` what this pipeline handed to its sink. */
  datatype Pipeline = Pipeline(
    persisted: seq<Event>,
    sunk: seq<Event>,
    delivered: set<string>,
    projecting: bool,
    pending: seq<PendingCall>,
    toolNames: map<string, string>,
    lastPlan: Option<string>)

  /** Reads the task list out of a tool result; its text is the fingerprint. */
  type TaskReader = string -> Option<string>

  const NOT_DELIVERED := "TOOL_RESULT_NOT_DELIVERED"
  const TASK_TOOLS := {"task_write", "task_update", "task_complete", "task_check"}

  // ---------------------------------------------------------------- identities

  function Key(id: CallId): string {
    match id
    case Missing => ""
    case Text(text) => text
    case Raw(rendering) => rendering
  }

  predicate Truthy(id: CallId) {
    Key(id) != ""
  }

  /** Only results under a proper string id are tracked as delivered. */
  predicate Tracked(e: Event) {
    e.ToolResult? && e.id.Text? && e.id.text != ""
  }

  predicate ResultFor(e: Event, key: string) {
    e.ToolResult? && Truthy(e.id) && Key(e.id) == key
  }

  predicate EndOf(e: Event, key: string) {
    e.ToolEnd? && Truthy(e.id) && Key(e.id) == key
  }

  // ---------------------------------------------------------------- the stored log

  predicate HasProtocolId(log: seq<Event>, eventId: string) {
    exists i :: 0 <= i < |log| && log[i].Protocol? && log[i].eventId == eventId
  }

  /** A protocol event already in the log is not written again. */
  predicate Skipped(log: seq<Event>, e: Event) {
    e.Protocol? && e.eventId != "" && HasProtocolId(log, e.eventId)
  }

  function Write(log: seq<Event>, e: Event): seq<Event> {
    if Skipped(log, e) then log else log + [e]
  }

  function WriteAll(log: seq<Event>, events: seq<Event>): seq<Event> {
    if events == [] then log
    else Write(WriteAll(log, events[..|events| - 1]), events[|events| - 1])
  }

  // ---------------------------------------------------------------- tool result bridge

  function MarkFirst(pending: seq<PendingCall>, key: string): seq<PendingCall> {
    if pending == [] then []
    else if pending[0].key == key then [pending[0].(hasResult := true)] + pending[1..]
    else [pending[0]] + MarkFirst(pending[1..], key)
  }

  function BridgeObserve(pending: seq<PendingCall>, e: Event): seq<PendingCall> {
    if e.ToolEnd? && Truthy(e.id) then
      var name := if e.name.Some? && e.name.value != "" then e.name.value else "unknown";
      pending + [PendingCall(Key(e.id), name, false)]
    else if e.ToolResult? && Truthy(e.id) then MarkFirst(pending, Key(e.id))
    else pending
  }

  function MissingResult(call: PendingCall): Event {
    ToolResult(Text(call.key), Some(call.name), Some(NOT_DELIVERED))
  }

  function FlushedResults(pending: seq<PendingCall>): seq<Event> {
    if pending == [] then []
    else
      var last := pending[|pending| - 1];
      FlushedResults(pending[..|pending| - 1]) + (if last.hasResult then [] else [MissingResult(last)])
  }

  function AllMarked(pending: seq<PendingCall>): seq<PendingCall> {
    if pending == [] then []
    else AllMarked(pending[..|pending| - 1]) + [pending[|pending| - 1].(hasResult := true)]
  }

  // ---------------------------------------------------------------- plan projection

  /** At most one plan event; the projector's memory moves with it. */
  function ObserveTask(p: Pipeline, read: TaskReader, e: Event): (Pipeline, seq<Event>) {
    if e.ToolStart? && e.id.Text? && e.name.Some? then
      (p.(toolNames := p.toolNames[e.id.text := e.name.value]), [])
    else if !(e.ToolResult? && e.id.Text? && e.content.Some?) then (p, [])
    else
      var forgot := p.(toolNames := p.toolNames - {e.id.text});
      if e.id.text !in p.toolNames || p.toolNames[e.id.text] !in TASK_TOOLS then (forgot, [])
      else match read(e.content.value)
        case None => (forgot, [])
        case Some(tasks) =>
          if p.lastPlan == Some(tasks) then (forgot, [])
          else (forgot.(lastPlan := Some(tasks)), [Plan(tasks)])
  }

  // ---------------------------------------------------------------- the pipeline

  predicate Dropped(p: Pipeline, e: Event) {
    Tracked(e) && e.id.text in p.delivered
  }

  function Deliver(p: Pipeline, e: Event): Pipeline {
    if Dropped(p, e) then p
    else p.(
      delivered := if Tracked(e) then p.delivered + {e.id.text} else p.delivered,
      persisted := Write(p.persisted, e),
      sunk := p.sunk + [e])
  }

  function DeliverAll(p: Pipeline, events: seq<Event>): Pipeline {
    if events == [] then p
    else Deliver(DeliverAll(p, events[..|events| - 1]), events[|events| - 1])
  }

  /** Before a terminal event, every finished call still without a result gets one. */
  function Flush(p: Pipeline): Pipeline {
    DeliverAll(p.(pending := AllMarked(p.pending)), FlushedResults(p.pending))
  }

  /** One event through persistence, sink and bridge. */
  function Pass(p: Pipeline, e: Event): Pipeline {
    var closed := if e.Terminal? then Flush(p) else p;
    var delivered := Deliver(closed, e);
    delivered.(pending := BridgeObserve(delivered.pending, e))
  }

  function PassAll(p: Pipeline, events: seq<Event>): Pipeline {
    if events == [] then p
    else Pass(PassAll(p, events[..|events| - 1]), events[|events| - 1])
  }

  function Emit(p: Pipeline, read: TaskReader, e: Event): Pipeline {
    var passed := Pass(p, e);
    if passed.projecting then passed
    else
      var (observed, projected) := ObserveTask(passed, read, e);
      if projected == [] then observed
      else PassAll(observed.(projecting := true), projected).(projecting := false)
  }

  /** A pipeline over a run whose log may already hold earlier events. */
  function Start(prior: seq<Event>): Pipeline {
    Pipeline(prior, [], {}, false, [], map[], None)
  }

  function EmitAll(prior: seq<Event>, read: TaskReader, events: seq<Event>): Pipeline {
    if events == [] then Start(prior)
    else Emit(EmitAll(prior, read, events[..|events| - 1]), read, events[|events| - 1])
  }
}
