/**
 The loop as the middleware runs it: variables captured by the subscription, reassigned event by event.
 */
module McpLoopMethods {
  import opened Wrappers
  import opened McpLoop

  method OpenToolCalls(messages: seq<Message>) returns (open: seq<ToolCall>)
    ensures open == OpenCalls(messages)
  {
    var toolCalls: seq<ToolCall>, completed: set<string> := [], {};
    for i := 0 to |messages|
      invariant toolCalls == AllCalls(messages[..i]) && completed == Completed(messages[..i])
    {
      assert messages[..i + 1][..i] == messages[..i];
      match messages[i]
      case Assistant(calls) => toolCalls := toolCalls + calls;
      case ToolMessage(call, _) => completed := completed + {call};
      case OtherMessage =>
    }
    assert messages[..|messages|] == messages;
    open := Unanswered(toolCalls, completed);
  }

  function Held(pendingFinished: Option<Event>): seq<Output> {
    if pendingFinished.Some? then [Inner(pendingFinished.value)] else []
  }

  /** What a middleware has sent and recorded. */
  datatype Progress = Progress(sent: seq<Output>, rounds: seq<Round>)

  function Extended(p: Progress, o: Outcome): Progress {
    Progress(p.sent + o.output, p.rounds + o.rounds)
  }

  function RoundOf(c: Config, w: World, i: nat, messages: seq<Message>): Round {
    Round(messages, Reported(RunAgent(w, i, messages).items, messages), RoundAnswers(c, w, i, messages))
  }

  /** One inner run later. */
  function AfterRun(c: Config, w: World, i: nat, messages: seq<Message>, suppress: bool, p: Progress): Progress {
    var run := RunAgent(w, i, messages);
    var sent := p.sent + Forwarded(run.items, suppress) + RoundAnswers(c, w, i, messages);
    var finish := if Following(c, w, i, messages).None? && EndOf(run).Complete? then Finish(run.items) else [];
    Progress(sent + finish, p.rounds + [RoundOf(c, w, i, messages)])
  }

  /** All inner runs from here on, with what they send and record added as they go. */
  function Proceed(c: Config, w: World, i: nat, messages: seq<Message>, suppress: bool, p: Progress): (Progress, End)
    requires i <= c.maxIterations
    decreases c.maxIterations - i
  {
    var after, next := AfterRun(c, w, i, messages, suppress, p), Following(c, w, i, messages);
    if next.Some? then Proceed(c, w, i + 1, next.value, true, after) else (after, EndOf(RunAgent(w, i, messages)))
  }

  /** Added as they go, they make up the outcome. */
  lemma {:induction false} ProceedIs(c: Config, w: World, i: nat, messages: seq<Message>, suppress: bool, p: Progress)
    requires i <= c.maxIterations
    ensures var o := ContinueRun(c, w, i, messages, suppress);
      Proceed(c, w, i, messages, suppress, p).0 == Extended(p, o) && Proceed(c, w, i, messages, suppress, p).1 == o.end
    decreases c.maxIterations - i
  {
    var next := Following(c, w, i, messages);
    if next.Some? {
      GoesOn(c, w, i, messages, suppress, p);
      ProceedIs(c, w, i + 1, next.value, true, AfterRun(c, w, i, messages, suppress, p));
    } else {
      StopsHere(c, w, i, messages, suppress, p);
    }
  }

  /** What is sent and recorded in one run of the agent is the whole outcome when nothing follows ... */
  lemma StopsHere(c: Config, w: World, i: nat, messages: seq<Message>, suppress: bool, p: Progress)
    requires i <= c.maxIterations && Following(c, w, i, messages).None?
    ensures var o := ContinueRun(c, w, i, messages, suppress);
      AfterRun(c, w, i, messages, suppress, p) == Extended(p, o) && EndOf(RunAgent(w, i, messages)) == o.end
  {
    var run, answers := RunAgent(w, i, messages), RoundAnswers(c, w, i, messages);
    Regroup(p.sent, Forwarded(run.items, suppress), answers);
    if EndOf(run).Complete? {
      Regroup(p.sent, Forwarded(run.items, suppress) + answers, Finish(run.items));
    } else {
      assert Forwarded(run.items, suppress) + answers + [] == Forwarded(run.items, suppress) + answers;
    }
  }

  lemma NothingAfterError(c: Config, w: World, i: nat, messages: seq<Message>)
    requires i <= c.maxIterations && RunAgent(w, i, messages).errored
    ensures RoundAnswers(c, w, i, messages) == [] && Following(c, w, i, messages).None?
  {
    assert EndOf(RunAgent(w, i, messages)) == Error;
  }

  /** ... and otherwise makes it up together with what follows. */
  lemma GoesOn(c: Config, w: World, i: nat, messages: seq<Message>, suppress: bool, p: Progress)
    requires i < c.maxIterations && Following(c, w, i, messages).Some?
    ensures var o := ContinueRun(c, w, i, messages, suppress);
      var rest := ContinueRun(c, w, i + 1, Following(c, w, i, messages).value, true);
      Extended(p, o) == Extended(AfterRun(c, w, i, messages, suppress, p), rest) && o.end == rest.end
  {
    var rest := ContinueRun(c, w, i + 1, Following(c, w, i, messages).value, true);
    var items, answers := RunAgent(w, i, messages).items, RoundAnswers(c, w, i, messages);
    Regroup(p.sent, Forwarded(items, suppress) + answers, rest.output);
    Regroup(p.sent, Forwarded(items, suppress), answers);
    assert p.sent + Forwarded(items, suppress) + answers + [] == p.sent + Forwarded(items, suppress) + answers;
    Regroup(p.rounds, [RoundOf(c, w, i, messages)], rest.rounds);
  }

  lemma Regroup<T>(a: seq<T>, b: seq<T>, c: seq<T>)
    ensures a + (b + c) == a + b + c
  {
  }

  class PolicyMcpMiddleware {
    const config: Config
    const world: World
    var iterations: nat
    var sent: seq<Output>
    var ended: Option<End>
    ghost var rounds: seq<Round>

    constructor (config: Config, world: World)
      ensures this.config == config && this.world == world
      ensures iterations == 0 && sent == [] && ended.None? && rounds == []
    {
      this.config, this.world := config, world;
      iterations, sent, ended, rounds := 0, [], None, [];
    }

    /** Runs the inner agent and passes its events on. */
    method Subscribe(run: InnerRun, messages: seq<Message>, suppressRunStarted: bool)
      returns (failed: bool, pendingFinished: Option<Event>, currentMessages: seq<Message>)
      modifies this`sent
      ensures sent == old(sent) + Forwarded(run.items, suppressRunStarted)
      ensures failed == Failed(run.items) && currentMessages == Reported(run.items, messages)
      ensures Finish(run.items) == Held(pendingFinished)
    {
      failed, pendingFinished, currentMessages := false, None, messages;
      var items := run.items;
      for i := 0 to |items|
        invariant sent == old(sent) + Forwarded(items[..i], suppressRunStarted)
        invariant failed == Failed(items[..i]) && currentMessages == Reported(items[..i], messages)
        invariant Finish(items[..i]) == Held(pendingFinished)
      {
        assert items[..i + 1][..i] == items[..i];
        var event := items[i].event;
        currentMessages := items[i].messages;
        if event.RunError? {
          failed := true;
          sent := sent + [Inner(event)];
        } else if event.RunFinished? {
          pendingFinished := Some(event);
        } else if !event.RunStarted? || !suppressRunStarted {
          sent := sent + [Inner(event)];
        }
      }
      assert items[..|items|] == items;
    }

    /** After a run of the agent: answers the open MCP calls, and says what the next run starts from. */
    method HandleIterationComplete(messages: seq<Message>, failed: bool, pendingFinished: Option<Event>,
                                   currentMessages: seq<Message>)
      returns (next: Option<seq<Message>>)
      requires iterations <= config.maxIterations && ended.None?
      requires var run := RunAgent(world, iterations, messages);
        !run.errored && failed == Failed(run.items) && currentMessages == Reported(run.items, messages)
      modifies this`sent, this`ended, this`iterations
      ensures var answers := RoundAnswers(config, world, old(iterations), messages);
        && next == Following(config, world, old(iterations), messages)
        && if next.Some?
        then && ended.None?
             && iterations == old(iterations) + 1 && sent == old(sent) + answers
        else && ended == Some(if failed then Fail else Complete)
             && old(iterations) <= iterations <= config.maxIterations
             && sent == old(sent) + answers + (if failed then [] else Held(pendingFinished))
    {
      next := None;
      if failed {
        ended := Some(Fail);
        return;
      }
      var openCalls := OpenToolCalls(currentMessages);
      openCalls := Answerable(openCalls, config.tools);
      if |openCalls| == 0 {
        assert RoundAnswers(config, world, iterations, messages) == [];
        Close(pendingFinished);
        return;
      }
      if iterations >= config.maxIterations {
        sent := sent + LimitAnswers(openCalls);
        Close(pendingFinished);
        return;
      }
      var results := Answers(world, iterations, openCalls);
      assert results == RoundAnswers(config, world, iterations, messages);
      iterations := iterations + 1;
      sent := sent + results;
      var nextMessages := currentMessages + ToolMessages(results);
      var stillOpen := OpenToolCalls(nextMessages);
      if |stillOpen| > 0 {
        Close(pendingFinished);
        return;
      }
      next := Some(nextMessages);
    }

    /** One run of the agent and all that follow it. */
    method Continue(messages: seq<Message>, suppressRunStarted: bool)
      requires iterations <= config.maxIterations && ended.None?
      modifies this
      ensures var o := ContinueRun(config, world, old(iterations), messages, suppressRunStarted);
        ToDate() == Extended(old(ToDate()), o) && ended == Some(o.end)
    {
      ProceedIs(config, world, iterations, messages, suppressRunStarted, ToDate());
      RunIteration(messages, suppressRunStarted);
    }

    /** Runs the agent until nothing follows. */
    method RunIteration(messages: seq<Message>, suppressRunStarted: bool)
      requires iterations <= config.maxIterations && ended.None?
      modifies this
      ensures var r := Proceed(config, world, old(iterations), messages, suppressRunStarted, old(ToDate()));
        ToDate() == r.0 && ended == Some(r.1)
      decreases config.maxIterations - iterations
    {
      var next := RunOnce(messages, suppressRunStarted);
      if next.Some? {
        RunIteration(next.value, true);
      }
    }

    ghost function ToDate(): Progress
      reads this
    {
      Progress(sent, rounds)
    }

    /** One inner run and what is sent after it. */
    method RunOnce(messages: seq<Message>, suppressRunStarted: bool) returns (next: Option<seq<Message>>)
      requires iterations <= config.maxIterations && ended.None?
      modifies this
      ensures next == Following(config, world, old(iterations), messages)
      ensures ToDate() == AfterRun(config, world, old(iterations), messages, suppressRunStarted, old(ToDate()))
      ensures if next.Some? then ended.None? && iterations == old(iterations) + 1
              else ended == Some(EndOf(RunAgent(world, old(iterations), messages)))
    {
      var run := RunAgent(world, iterations, messages);
      rounds := rounds + [RoundOf(config, world, iterations, messages)];
      var failed, pendingFinished, currentMessages := Subscribe(run, messages, suppressRunStarted);
      if run.errored {
        ended, next := Some(Error), None;
        NothingAfterError(config, world, iterations, messages);
        assert sent == sent + [] + [];
        return;
      }
      next := HandleIterationComplete(messages, failed, pendingFinished, currentMessages);
    }

    /** Sends the finish that was held back, if there is one. */
    method Close(pendingFinished: Option<Event>)
      modifies this`sent, this`ended
      ensures ended == Some(Complete)
      ensures sent == old(sent) + Held(pendingFinished)
    {
      if pendingFinished.Some? {
        sent := sent + [Inner(pendingFinished.value)];
      }
      ended := Some(Complete);
    }
  }
}
