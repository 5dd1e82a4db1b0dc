/**
 The bounded tool loop around an inner agent: run the agent, execute the MCP calls it left open, run it
 again on the longer conversation. The inner agent and the tools are arbitrary functions.
 */
module McpLoop {
  import opened Wrappers

  datatype ToolCall = ToolCall(id: string, name: string)

  datatype Message = Assistant(calls: seq<ToolCall>) | ToolMessage(call: string, content: string) | OtherMessage

  datatype Event = RunStarted | RunFinished(outcome: string) | RunError(message: string) | OtherEvent(name: string)

  /** What the subscriber sees: events of the inner agent, and tool results of the loop's own. */
  datatype Output = Inner(event: Event) | Answer(call: string, content: string)

  /** An event of the inner agent with its message list at that point. */
  datatype Item = Item(event: Event, messages: seq<Message>)

  datatype InnerRun = InnerRun(items: seq<Item>, errored: bool)

  /** The agent and the tools may answer differently each time: they are told how many rounds are done. */
  datatype World = World(agent: (nat, seq<Message>) -> InnerRun, execute: (nat, ToolCall) -> string)

  function RunAgent(w: World, iterations: nat, messages: seq<Message>): InnerRun {
    w.agent(iterations, messages)
  }

  function Execute(w: World, iterations: nat, call: ToolCall): string {
    w.execute(iterations, call)
  }

  datatype Config = Config(maxIterations: nat, tools: set<string>)

  // ---------------------------------------------------------------- the iteration limit

  datatype LimitOption = Absent | NotFinite | Finite(value: real)

  const DEFAULT_MAX_ITERATIONS: nat := 32

  function MaxIterations(option: LimitOption): (n: nat)
    ensures n >= 1
    ensures option.Finite? && option.value >= 1.0 ==> n as real <= option.value < n as real + 1.0
    ensures option.Finite? && option.value < 1.0 ==> n == 1
    ensures !option.Finite? ==> n == 32
  {
    if option.Finite? then (if option.value.Floor < 1 then 1 else option.value.Floor) else DEFAULT_MAX_ITERATIONS
  }

  // ---------------------------------------------------------------- open calls

  function AllCalls(messages: seq<Message>): seq<ToolCall> {
    if messages == [] then []
    else
      var last, earlier := messages[|messages| - 1], AllCalls(messages[..|messages| - 1]);
      if last.Assistant? then earlier + last.calls else earlier
  }

  function Completed(messages: seq<Message>): set<string> {
    if messages == [] then {}
    else
      var last, earlier := messages[|messages| - 1], Completed(messages[..|messages| - 1]);
      if last.ToolMessage? then earlier + {last.call} else earlier
  }

  /** The calls without a tool message. */
  function Unanswered(calls: seq<ToolCall>, completed: set<string>): (open: seq<ToolCall>)
    ensures forall call :: call in open <==> call in calls && call.id !in completed
  {
    if calls == [] then []
    else
      var last, earlier := calls[|calls| - 1], Unanswered(calls[..|calls| - 1], completed);
      assert calls == calls[..|calls| - 1] + [last];
      if last.id in completed then earlier else earlier + [last]
  }

  function OpenCalls(messages: seq<Message>): seq<ToolCall> {
    Unanswered(AllCalls(messages), Completed(messages))
  }

  /** Those of them that MCP tools can answer. */
  function Answerable(calls: seq<ToolCall>, tools: set<string>): (r: seq<ToolCall>)
    ensures forall call :: call in r <==> call in calls && call.name in tools
  {
    if calls == [] then []
    else
      var last, earlier := calls[|calls| - 1], Answerable(calls[..|calls| - 1], tools);
      assert calls == calls[..|calls| - 1] + [last];
      if last.name in tools then earlier + [last] else earlier
  }

  // ---------------------------------------------------------------- one run of the inner agent

  /** The events passed on while the agent runs; the finish is held back. */
  function Forwarded(items: seq<Item>, suppress: bool): seq<Output> {
    if items == [] then []
    else
      var last, earlier := items[|items| - 1].event, Forwarded(items[..|items| - 1], suppress);
      if last.RunFinished? || (last.RunStarted? && suppress) then earlier else earlier + [Inner(last)]
  }

  predicate Failed(items: seq<Item>) {
    items != [] && (items[|items| - 1].event.RunError? || Failed(items[..|items| - 1]))
  }

  /** The last finish. */
  function Finish(items: seq<Item>): seq<Output> {
    if items == [] then []
    else if items[|items| - 1].event.RunFinished? then [Inner(items[|items| - 1].event)]
    else Finish(items[..|items| - 1])
  }

  function Reported(items: seq<Item>, messages: seq<Message>): seq<Message> {
    if items == [] then messages else items[|items| - 1].messages
  }

  function Answers(w: World, iterations: nat, calls: seq<ToolCall>): (answers: seq<Output>)
    ensures |answers| == |calls|
    ensures forall i :: 0 <= i < |calls| ==> answers[i] == Answer(calls[i].id, Execute(w, iterations, calls[i]))
  {
    seq(|calls|, i requires 0 <= i < |calls| => Answer(calls[i].id, Execute(w, iterations, calls[i])))
  }

  const LIMIT_CONTENT := "MCP_ITERATION_LIMIT"

  function LimitAnswers(calls: seq<ToolCall>): (answers: seq<Output>)
    ensures |answers| == |calls|
    ensures forall i :: 0 <= i < |calls| ==> answers[i] == Answer(calls[i].id, LIMIT_CONTENT)
  {
    seq(|calls|, i requires 0 <= i < |calls| => Answer(calls[i].id, LIMIT_CONTENT))
  }

  function ToolMessages(answers: seq<Output>): (messages: seq<Message>)
    requires forall i :: 0 <= i < |answers| ==> answers[i].Answer?
    ensures |messages| == |answers|
    ensures forall i :: 0 <= i < |answers| ==> messages[i] == ToolMessage(answers[i].call, answers[i].content)
  {
    seq(|answers|, i requires 0 <= i < |answers| => ToolMessage(answers[i].call, answers[i].content))
  }

  // ---------------------------------------------------------------- the loop

  datatype End = Complete | Fail | Error

  /** One run of the inner agent: what it was given, what it reported and what the loop answered. */
  datatype Round = Round(given: seq<Message>, reported: seq<Message>, answers: seq<Output>)

  datatype Outcome = Outcome(output: seq<Output>, rounds: seq<Round>, end: End)

  function EndOf(run: InnerRun): End {
    if run.errored then Error else if Failed(run.items) then Fail else Complete
  }

  /** The open MCP calls after a run of the agent. */
  function OpenMcpCalls(c: Config, w: World, iterations: nat, messages: seq<Message>): seq<ToolCall> {
    Answerable(OpenCalls(Reported(RunAgent(w, iterations, messages).items, messages)), c.tools)
  }

  /** The results the loop sends for them: none after a failure, the limit's once it is reached. */
  function RoundAnswers(c: Config, w: World, iterations: nat, messages: seq<Message>): (answers: seq<Output>)
    ensures forall i :: 0 <= i < |answers| ==> answers[i].Answer?
  {
    var open := OpenMcpCalls(c, w, iterations, messages);
    if !EndOf(RunAgent(w, iterations, messages)).Complete? then []
    else if iterations >= c.maxIterations then LimitAnswers(open)
    else Answers(w, iterations, open)
  }

  function NextMessages(c: Config, w: World, iterations: nat, messages: seq<Message>): seq<Message> {
    Reported(RunAgent(w, iterations, messages).items, messages) + ToolMessages(RoundAnswers(c, w, iterations, messages))
  }

  /** Does another run of the agent follow? Only when calls were answered and none of any kind is open. */
  predicate Continues(c: Config, w: World, iterations: nat, messages: seq<Message>) {
    && EndOf(RunAgent(w, iterations, messages)).Complete? && OpenMcpCalls(c, w, iterations, messages) != []
    && iterations < c.maxIterations && OpenCalls(NextMessages(c, w, iterations, messages)) == []
  }

  /** The conversation the next run starts from, if there is one. */
  function Following(c: Config, w: World, iterations: nat, messages: seq<Message>): (next: Option<seq<Message>>)
    ensures next.Some? ==> iterations < c.maxIterations
  {
    if Continues(c, w, iterations, messages) then Some(NextMessages(c, w, iterations, messages)) else None
  }

  function ContinueRun(c: Config, w: World, iterations: nat, messages: seq<Message>, suppress: bool): (o: Outcome)
    requires iterations <= c.maxIterations
    ensures o.rounds != []
    decreases c.maxIterations - iterations
  {
    var run, answers := RunAgent(w, iterations, messages), RoundAnswers(c, w, iterations, messages);
    var front := Forwarded(run.items, suppress) + answers;
    var round := Round(messages, Reported(run.items, messages), answers);
    var next := Following(c, w, iterations, messages);
    if next.Some? then
      var rest := ContinueRun(c, w, iterations + 1, next.value, true);
      Outcome(front + rest.output, [round] + rest.rounds, rest.end)
    else
      Outcome(front + if EndOf(run).Complete? then Finish(run.items) else [], [round], EndOf(run))
  }

  function RunLoop(c: Config, w: World, messages: seq<Message>): Outcome {
    ContinueRun(c, w, 0, messages, false)
  }
}
