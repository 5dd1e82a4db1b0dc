/**
 What the tool loop guarantees around every inner agent.
 */
module McpLoopRuns {
  import opened Wrappers
  import opened McpLoop

  // ---------------------------------------------------------------- bounds

  /** At most `maxIterations` rounds of tool calls, so at most one more run of the inner agent. */
  lemma {:induction false} RunsAreBounded(c: Config, w: World, iterations: nat, messages: seq<Message>, suppress: bool)
    requires iterations <= c.maxIterations
    ensures |ContinueRun(c, w, iterations, messages, suppress).rounds| <= c.maxIterations - iterations + 1
    decreases c.maxIterations - iterations
  {
    if Continues(c, w, iterations, messages) {
      RunsAreBounded(c, w, iterations + 1, NextMessages(c, w, iterations, messages), true);
    }
  }

  /** Each further run gets what the previous one reported followed by the results just sent, in order,
      and by then no call at all is open. */
  lemma {:induction false} ConversationGrows(c: Config, w: World, iterations: nat, messages: seq<Message>,
                                             suppress: bool, k: nat)
    requires iterations <= c.maxIterations
    requires k + 1 < |ContinueRun(c, w, iterations, messages, suppress).rounds|
    ensures var rounds := ContinueRun(c, w, iterations, messages, suppress).rounds;
      && (forall i :: 0 <= i < |rounds[k].answers| ==> rounds[k].answers[i].Answer?)
      && rounds[k + 1].given == rounds[k].reported + ToolMessages(rounds[k].answers)
      && OpenCalls(rounds[k + 1].given) == []
    decreases c.maxIterations - iterations
  {
    var next := NextMessages(c, w, iterations, messages);
    if k > 0 {
      ConversationGrows(c, w, iterations + 1, next, true, k - 1);
    }
  }

  // ---------------------------------------------------------------- the grammar of the output

  function Starts(output: seq<Output>): nat {
    if output == [] then 0
    else Starts(output[..|output| - 1]) + if output[|output| - 1] == Inner(RunStarted) then 1 else 0
  }

  function InnerStarts(items: seq<Item>): nat {
    if items == [] then 0
    else InnerStarts(items[..|items| - 1]) + if items[|items| - 1].event.RunStarted? then 1 else 0
  }

  lemma {:induction false} StartsAppend(a: seq<Output>, b: seq<Output>)
    ensures Starts(a + b) == Starts(a) + Starts(b)
    decreases |b|
  {
    if b == [] {
      assert a + b == a;
    } else {
      assert (a + b)[..|a + b| - 1] == a + b[..|b| - 1];
      StartsAppend(a, b[..|b| - 1]);
    }
  }

  lemma {:induction false} StartsForwarded(items: seq<Item>, suppress: bool)
    ensures Starts(Forwarded(items, suppress)) == if suppress then 0 else InnerStarts(items)
  {
    if items != [] {
      var front := items[..|items| - 1];
      StartsForwarded(front, suppress);
      StartsAppend(Forwarded(front, suppress), [Inner(items[|items| - 1].event)]);
      assert [Inner(items[|items| - 1].event)][..0] == [];
    }
  }

  lemma {:induction false} PlainHasNoStart(output: seq<Output>)
    requires forall i :: 0 <= i < |output| ==> output[i] != Inner(RunStarted)
    ensures Starts(output) == 0
  {
    if output != [] { PlainHasNoStart(output[..|output| - 1]); }
  }

  lemma {:induction false} FinishShape(items: seq<Item>)
    ensures |Finish(items)| <= 1 && forall o :: o in Finish(items) ==> o.Inner? && o.event.RunFinished?
  {
    if items != [] { FinishShape(items[..|items| - 1]); }
  }

  /** Only the first run of the agent starts the output, as often as it starts itself. */
  lemma {:induction false} StartsOnce(c: Config, w: World, iterations: nat, messages: seq<Message>, suppress: bool)
    requires iterations <= c.maxIterations
    ensures Starts(ContinueRun(c, w, iterations, messages, suppress).output)
         == if suppress then 0 else InnerStarts(RunAgent(w, iterations, messages).items)
    decreases c.maxIterations - iterations
  {
    var run, answers := RunAgent(w, iterations, messages), RoundAnswers(c, w, iterations, messages);
    var front := Forwarded(run.items, suppress) + answers;
    StartsForwarded(run.items, suppress);
    FinishShape(run.items);
    PlainHasNoStart(Finish(run.items));
    PlainHasNoStart(answers);
    StartsAppend(Forwarded(run.items, suppress), answers);
    if Continues(c, w, iterations, messages) {
      var next := NextMessages(c, w, iterations, messages);
      StartsOnce(c, w, iterations + 1, next, true);
      StartsAppend(front, ContinueRun(c, w, iterations + 1, next, true).output);
    } else {
      StartsAppend(front, Finish(run.items));
      StartsAppend(front, []);
    }
  }

  ghost predicate NoFinish(output: seq<Output>) {
    forall o :: o in output ==> !(o.Inner? && o.event.RunFinished?)
  }

  ghost predicate NoError(output: seq<Output>) {
    forall o :: o in output ==> !(o.Inner? && o.event.RunError?)
  }

  lemma {:induction false} ForwardedShape(items: seq<Item>, suppress: bool)
    ensures NoFinish(Forwarded(items, suppress))
    ensures NoError(Forwarded(items, suppress)) <==> !Failed(items)
  {
    if items != [] {
      ForwardedShape(items[..|items| - 1], suppress);
      if items[|items| - 1].event.RunError? {
        assert Inner(items[|items| - 1].event) in Forwarded(items, suppress);
      }
    }
  }

  /** The finish comes last or not at all. */
  ghost predicate FinishesLast(output: seq<Output>) {
    output == [] || NoFinish(output[..|output| - 1])
  }

  lemma FinishGoesLast(shown: seq<Output>, answers: seq<Output>, finish: seq<Output>)
    requires NoFinish(shown) && forall i :: 0 <= i < |answers| ==> answers[i].Answer?
    requires |finish| <= 1 && forall o :: o in finish ==> o.Inner? && o.event.RunFinished?
    ensures FinishesLast(shown + answers + finish) && (finish == [] ==> NoFinish(shown + answers + finish))
    ensures NoError(shown + answers + finish) <==> NoError(shown)
  {
    var all := shown + answers + finish;
    assert finish != [] ==> all[..|all| - 1] == shown + answers;
    assert forall o :: o in shown ==> o in all;
  }

  lemma FinishStaysLast(shown: seq<Output>, answers: seq<Output>, rest: seq<Output>)
    requires NoFinish(shown) && FinishesLast(rest) && forall i :: 0 <= i < |answers| ==> answers[i].Answer?
    ensures FinishesLast(shown + answers + rest) && (NoFinish(rest) ==> NoFinish(shown + answers + rest))
    ensures NoError(shown + answers + rest) <==> NoError(shown) && NoError(rest)
  {
    var all := shown + answers + rest;
    assert rest != [] ==> all[..|all| - 1] == shown + answers + rest[..|rest| - 1];
    assert rest == [] ==> all == shown + answers;
    assert forall o :: o in shown || o in rest ==> o in all;
  }

  /** RUN_FINISHED appears at most once and last; a run that failed or broke off never finishes; an error
      in the output means it failed or broke off, and is not followed by any result of the loop. */
  lemma {:induction false} OutputGrammar(c: Config, w: World, iterations: nat, messages: seq<Message>, suppress: bool)
    requires iterations <= c.maxIterations
    ensures var o := ContinueRun(c, w, iterations, messages, suppress);
      && FinishesLast(o.output)
      && (!o.end.Complete? ==> NoFinish(o.output))
      && (o.end.Complete? ==> NoError(o.output))
      && (o.end.Fail? ==> !NoError(o.output))
    decreases c.maxIterations - iterations
  {
    var run, answers := RunAgent(w, iterations, messages), RoundAnswers(c, w, iterations, messages);
    var shown := Forwarded(run.items, suppress);
    ForwardedShape(run.items, suppress);
    FinishShape(run.items);
    if Continues(c, w, iterations, messages) {
      var next := NextMessages(c, w, iterations, messages);
      OutputGrammar(c, w, iterations + 1, next, true);
      FinishStaysLast(shown, answers, ContinueRun(c, w, iterations + 1, next, true).output);
    } else {
      FinishGoesLast(shown, answers, if EndOf(run).Complete? then Finish(run.items) else []);
    }
  }

  // ---------------------------------------------------------------- results

  /** The calls the loop answered, in order. */
  function Answered(output: seq<Output>): seq<string> {
    if output == [] then []
    else
      var last, earlier := output[|output| - 1], Answered(output[..|output| - 1]);
      if last.Answer? then earlier + [last.call] else earlier
  }

  lemma {:induction false} AnsweredAppend(a: seq<Output>, b: seq<Output>)
    ensures Answered(a + b) == Answered(a) + Answered(b)
    decreases |b|
  {
    if b == [] {
      assert a + b == a;
    } else {
      assert (a + b)[..|a + b| - 1] == a + b[..|b| - 1];
      AnsweredAppend(a, b[..|b| - 1]);
    }
  }

  lemma {:induction false} InnerAnswersNothing(output: seq<Output>)
    requires forall o :: o in output ==> o.Inner?
    ensures Answered(output) == []
  {
    if output != [] {
      assert output[|output| - 1] in output && forall o :: o in output[..|output| - 1] ==> o in output;
      InnerAnswersNothing(output[..|output| - 1]);
    }
  }

  lemma {:induction false} ForwardedIsInner(items: seq<Item>, suppress: bool)
    ensures forall o :: o in Forwarded(items, suppress) ==> o.Inner?
  {
    if items != [] { ForwardedIsInner(items[..|items| - 1], suppress); }
  }

  function Ids(calls: seq<ToolCall>): (ids: seq<string>)
    ensures |ids| == |calls| && forall i :: 0 <= i < |calls| ==> ids[i] == calls[i].id
  {
    seq(|calls|, i requires 0 <= i < |calls| => calls[i].id)
  }

  lemma {:induction false} AnsweredAll(calls: seq<ToolCall>, answers: seq<Output>)
    requires |answers| == |calls|
    requires forall i :: 0 <= i < |calls| ==> answers[i].Answer? && answers[i].call == calls[i].id
    ensures Answered(answers) == Ids(calls)
    decreases |calls|
  {
    if calls != [] { AnsweredAll(calls[..|calls| - 1], answers[..|answers| - 1]); }
  }

  /** What the loop answers in one round: the ids of the open calls. */
  function RoundIds(c: Config, w: World, iterations: nat, messages: seq<Message>): seq<string> {
    Ids(OpenMcpCalls(c, w, iterations, messages))
  }

  lemma RoundAnswered(c: Config, w: World, iterations: nat, messages: seq<Message>, suppress: bool)
    ensures var run := RunAgent(w, iterations, messages);
      Answered(Forwarded(run.items, suppress) + RoundAnswers(c, w, iterations, messages))
        == (if EndOf(run).Complete? then RoundIds(c, w, iterations, messages) else [])
  {
    var run, answers := RunAgent(w, iterations, messages), RoundAnswers(c, w, iterations, messages);
    ForwardedIsInner(run.items, suppress);
    InnerAnswersNothing(Forwarded(run.items, suppress));
    AnsweredAppend(Forwarded(run.items, suppress), answers);
    if EndOf(run).Complete? { AnsweredAll(OpenMcpCalls(c, w, iterations, messages), answers); }
  }

  /** The output's results are the rounds' open calls, one round after the other. */
  lemma AnsweredStep(c: Config, w: World, iterations: nat, messages: seq<Message>, suppress: bool)
    requires iterations <= c.maxIterations
    ensures Answered(ContinueRun(c, w, iterations, messages, suppress).output) ==
        (if !EndOf(RunAgent(w, iterations, messages)).Complete? then []
         else if Continues(c, w, iterations, messages)
         then RoundIds(c, w, iterations, messages)
              + Answered(ContinueRun(c, w, iterations + 1, NextMessages(c, w, iterations, messages), true).output)
         else RoundIds(c, w, iterations, messages))
  {
    var run, answers := RunAgent(w, iterations, messages), RoundAnswers(c, w, iterations, messages);
    var front := Forwarded(run.items, suppress) + answers;
    RoundAnswered(c, w, iterations, messages, suppress);
    FinishShape(run.items);
    InnerAnswersNothing(Finish(run.items));
    if Continues(c, w, iterations, messages) {
      AnsweredAppend(front, ContinueRun(c, w, iterations + 1, NextMessages(c, w, iterations, messages), true).output);
    } else {
      AnsweredAppend(front, if EndOf(run).Complete? then Finish(run.items) else []);
    }
  }

  ghost predicate Distinct(ids: seq<string>) {
    forall i, j | 0 <= i < j < |ids| :: ids[i] != ids[j]
  }

  lemma DistinctAppend(a: seq<string>, b: seq<string>)
    ensures Distinct(a + b) <==> (Distinct(a) && Distinct(b) && forall x :: x in a ==> x !in b)
  {
    var ab := a + b;
    assert forall i | 0 <= i < |a| :: ab[i] == a[i];
    assert forall j | 0 <= j < |b| :: ab[|a| + j] == b[j];
    if Distinct(ab) {
      forall i, j | 0 <= i < j < |a| ensures a[i] != a[j] { assert ab[i] != ab[j]; }
      forall i, j | 0 <= i < j < |b| ensures b[i] != b[j] { assert ab[|a| + i] != ab[|a| + j]; }
      forall i, j | 0 <= i < |a| && 0 <= j < |b| ensures a[i] != b[j] { assert ab[i] != ab[|a| + j]; }
    }
    if Distinct(a) && Distinct(b) && forall x :: x in a ==> x !in b {
      forall i, j | 0 <= i < j < |ab| ensures ab[i] != ab[j] {
        if i < |a| <= j { assert a[i] in a && b[j - |a|] in b; }
      }
    }
  }

  lemma {:induction false} CompletedAppend(a: seq<Message>, b: seq<Message>)
    ensures Completed(a + b) == Completed(a) + Completed(b)
    decreases |b|
  {
    if b == [] {
      assert a + b == a;
    } else {
      assert (a + b)[..|a + b| - 1] == a + b[..|b| - 1];
      CompletedAppend(a, b[..|b| - 1]);
    }
  }

  lemma {:induction false} CompletedByAnswers(messages: seq<Message>, id: string)
    ensures id in Completed(messages) <==>
              exists i :: 0 <= i < |messages| && messages[i].ToolMessage? && messages[i].call == id
  {
    if messages != [] {
      var front := messages[..|messages| - 1];
      CompletedByAnswers(front, id);
      if id in Completed(front) {
        var i :| 0 <= i < |front| && front[i].ToolMessage? && front[i].call == id;
        assert messages[i] == front[i];
      }
      if exists i :: 0 <= i < |messages| && messages[i].ToolMessage? && messages[i].call == id {
        var i :| 0 <= i < |messages| && messages[i].ToolMessage? && messages[i].call == id;
        if i < |front| { assert front[i] == messages[i]; }
      }
    }
  }

  /** The calls answered in a round count as completed from then on. */
  lemma RoundCompletes(c: Config, w: World, iterations: nat, messages: seq<Message>)
    requires Continues(c, w, iterations, messages)
    ensures var reported := Reported(RunAgent(w, iterations, messages).items, messages);
      Completed(NextMessages(c, w, iterations, messages))
        == Completed(reported) + set id | id in RoundIds(c, w, iterations, messages)
  {
    var reported := Reported(RunAgent(w, iterations, messages).items, messages);
    var more := ToolMessages(RoundAnswers(c, w, iterations, messages));
    CompletedAppend(reported, more);
    forall id ensures id in Completed(more) <==> id in RoundIds(c, w, iterations, messages) {
      CompletedByAnswers(more, id);
    }
  }

  /** In every round that is reached, the open calls have different ids, none of them answered in an earlier
      round; `seen` are the ids answered so far. */
  ghost predicate RoundsFresh(c: Config, w: World, iterations: nat, messages: seq<Message>, seen: set<string>)
    requires iterations <= c.maxIterations
    decreases c.maxIterations - iterations
  {
    var ids := RoundIds(c, w, iterations, messages);
    !EndOf(RunAgent(w, iterations, messages)).Complete? ||
    (&& Distinct(ids) && (forall id :: id in ids ==> id !in seen)
     && (Continues(c, w, iterations, messages) ==>
           RoundsFresh(c, w, iterations + 1, NextMessages(c, w, iterations, messages), seen + set id | id in ids)))
  }

  /** For every agent: no call is answered twice exactly when each round finds fresh ids only. */
  lemma {:induction false} NoCallAnsweredTwiceIff(c: Config, w: World, iterations: nat, messages: seq<Message>,
                                                  suppress: bool, seen: set<string>)
    requires iterations <= c.maxIterations
    ensures var answered := Answered(ContinueRun(c, w, iterations, messages, suppress).output);
      Distinct(answered) && (forall id :: id in answered ==> id !in seen) <==>
          RoundsFresh(c, w, iterations, messages, seen)
    decreases c.maxIterations - iterations
  {
    AnsweredStep(c, w, iterations, messages, suppress);
    if Continues(c, w, iterations, messages) {
      var ids, next := RoundIds(c, w, iterations, messages), NextMessages(c, w, iterations, messages);
      NoCallAnsweredTwiceIff(c, w, iterations + 1, next, true, seen + set id | id in ids);
      FreshAppend(ids, Answered(ContinueRun(c, w, iterations + 1, next, true).output), seen);
    }
  }

  lemma FreshAppend(a: seq<string>, b: seq<string>, seen: set<string>)
    ensures Distinct(a + b) && (forall id :: id in a + b ==> id !in seen) <==>
      Distinct(a) && (forall id :: id in a ==> id !in seen)
      && Distinct(b) && (forall id :: id in b ==> id !in seen + set id | id in a)
  {
    DistinctAppend(a, b);
    if forall id :: id in a + b ==> id !in seen {
      assert forall id :: id in a ==> id in a + b;
      assert forall id :: id in b ==> id in a + b;
    }
  }

  /** In every round that is reached, the message list the agent reports still has the tool messages it was
      given. */
  ghost predicate KeepsToolMessages(c: Config, w: World, iterations: nat, messages: seq<Message>)
    requires iterations <= c.maxIterations
    decreases c.maxIterations - iterations
  {
    && Completed(messages) <= Completed(Reported(RunAgent(w, iterations, messages).items, messages))
    && (Continues(c, w, iterations, messages) ==>
          KeepsToolMessages(c, w, iterations + 1, NextMessages(c, w, iterations, messages)))
  }

  /** In every round that is reached the open calls have different ids. */
  ghost predicate RoundsDiffer(c: Config, w: World, iterations: nat, messages: seq<Message>)
    requires iterations <= c.maxIterations
    decreases c.maxIterations - iterations
  {
    !EndOf(RunAgent(w, iterations, messages)).Complete? ||
    (&& Distinct(RoundIds(c, w, iterations, messages))
     && (Continues(c, w, iterations, messages) ==>
           RoundsDiffer(c, w, iterations + 1, NextMessages(c, w, iterations, messages))))
  }

  /** With an agent that keeps its tool messages only a repeat within one round can go wrong: what was
      answered is not open again. */
  lemma {:induction false} KeptMessagesStayAnswered(c: Config, w: World, iterations: nat, messages: seq<Message>,
                                                    seen: set<string>)
    requires iterations <= c.maxIterations && KeepsToolMessages(c, w, iterations, messages)
        && seen <= Completed(messages)
    ensures RoundsFresh(c, w, iterations, messages, seen) <==> RoundsDiffer(c, w, iterations, messages)
    decreases c.maxIterations - iterations
  {
    RoundIsOpen(c, w, iterations, messages);
    if Continues(c, w, iterations, messages) {
      RoundCompletes(c, w, iterations, messages);
      KeptMessagesStayAnswered(c, w, iterations + 1, NextMessages(c, w, iterations, messages),
                               seen + set id | id in RoundIds(c, w, iterations, messages));
    }
  }

  /** An open call has no tool message. */
  lemma RoundIsOpen(c: Config, w: World, iterations: nat, messages: seq<Message>)
    ensures forall id :: id in RoundIds(c, w, iterations, messages) ==>
      id !in Completed(Reported(RunAgent(w, iterations, messages).items, messages))
  {
    var open := OpenMcpCalls(c, w, iterations, messages);
    assert forall call :: call in open ==>
        call in OpenCalls(Reported(RunAgent(w, iterations, messages).items, messages));
  }

  /** ... so such an agent gets no call answered twice exactly when no round finds two open calls of one id. */
  lemma NoCallAnsweredTwiceIfKept(c: Config, w: World, messages: seq<Message>)
    requires KeepsToolMessages(c, w, 0, messages)
    ensures Distinct(Answered(RunLoop(c, w, messages).output)) <==> RoundsDiffer(c, w, 0, messages)
  {
    NoCallAnsweredTwiceIff(c, w, 0, messages, false, {});
    KeptMessagesStayAnswered(c, w, 0, messages, {});
  }

  // An agent that reports the same list whatever it is given, and tools that answer nothing of interest.

  function Stubborn(list: seq<Message>): World {
    World((n, messages) => InnerRun([Item(OtherEvent("e"), list)], false), (n, call) => "ok")
  }

  /** Such an agent leaves the same calls open each time. */
  lemma StubbornRound(c: Config, calls: seq<ToolCall>, n: nat, messages: seq<Message>)
    requires forall call :: call in calls ==> call.name in c.tools
    ensures var w := Stubborn([Assistant(calls)]);
      && EndOf(RunAgent(w, n, messages)).Complete?
      && Reported(RunAgent(w, n, messages).items, messages) == [Assistant(calls)]
      && OpenMcpCalls(c, w, n, messages) == calls && RoundIds(c, w, n, messages) == Ids(calls)
      && (|calls| == 1 ==> RoundIds(c, w, n, messages) == [calls[0].id])
  {
    var run := RunAgent(Stubborn([Assistant(calls)]), n, messages);
    assert run.items == [Item(OtherEvent("e"), [Assistant(calls)])] && run.items[..0] == [];
    assert !Failed(run.items);
    ListOf(calls);
    OpenOf(calls, c.tools);
  }

  /** One round with two open calls of one id: the call is answered twice. */
  lemma DuplicateIdWitness(call: ToolCall, messages: seq<Message>)
    ensures !Distinct(Answered(RunLoop(Config(1, {call.name}), Stubborn([Assistant([call, call])]), messages).output))
  {
    var c, w := Config(1, {call.name}), Stubborn([Assistant([call, call])]);
    StubbornRound(c, [call, call], 0, messages);
    assert RoundIds(c, w, 0, messages)[0] == RoundIds(c, w, 0, messages)[1];
    NotFreshMeansTwice(c, w, messages);
  }

  /** One open call, answered, and nothing open behind it: the agent is run again. */
  lemma GoesOn(c: Config, w: World, iterations: nat, messages: seq<Message>, reported: seq<Message>, call: ToolCall)
    requires iterations < c.maxIterations && EndOf(RunAgent(w, iterations, messages)).Complete?
    requires Reported(RunAgent(w, iterations, messages).items, messages) == reported
    requires OpenMcpCalls(c, w, iterations, messages) == [call]
    requires OpenCalls(reported + [ToolMessage(call.id, Execute(w, iterations, call))]) == []
    ensures Continues(c, w, iterations, messages)
  {
    assert RoundAnswers(c, w, iterations, messages) == [Answer(call.id, Execute(w, iterations, call))];
    assert NextMessages(c, w, iterations, messages) == reported + [ToolMessage(call.id, Execute(w, iterations, call))];
  }

  /** The conversation after the forgetful agent's first round has no open call. */
  lemma AnsweredList(call: ToolCall, list: seq<Message>, content: string)
    requires AllCalls(list) == [call]
    ensures OpenCalls(list + [ToolMessage(call.id, content)]) == []
  {
    var next := list + [ToolMessage(call.id, content)];
    assert next[..|list|] == list;
    assert AllCalls(next) == [call] && call.id in Completed(next);
    NoneOpen([call], Completed(next));
  }

  /** The forgetful agent is run again, on its list and the result. */
  lemma ForgetfulAgentContinues(c: Config, call: ToolCall, messages: seq<Message>)
    requires c.maxIterations == 1 && call.name in c.tools
    ensures Continues(c, Stubborn([Assistant([call])]), 0, messages)
  {
    var w := Stubborn([Assistant([call])]);
    StubbornRound(c, [call], 0, messages);
    ListOf([call]);
    AnsweredList(call, [Assistant([call])], Execute(w, 0, call));
    GoesOn(c, w, 0, messages, [Assistant([call])], call);
  }

  /** An agent that forgets the result it was sent asks for it again. */
  lemma ForgetfulAgentWitness(call: ToolCall, messages: seq<Message>)
    ensures !Distinct(Answered(RunLoop(Config(1, {call.name}), Stubborn([Assistant([call])]), messages).output))
  {
    var c, w := Config(1, {call.name}), Stubborn([Assistant([call])]);
    StubbornRound(c, [call], 0, messages);
    ForgetfulAgentContinues(c, call, messages);
    var next := Following(c, w, 0, messages).value;
    StubbornRound(c, [call], 1, next);
    AskedAgain(c, w, 0, messages, next, call.id);
    NotFreshMeansTwice(c, w, messages);
  }

  lemma NotFreshMeansTwice(c: Config, w: World, messages: seq<Message>)
    requires !RoundsFresh(c, w, 0, messages, {})
    ensures !Distinct(Answered(RunLoop(c, w, messages).output))
  {
    NoCallAnsweredTwiceIff(c, w, 0, messages, false, {});
  }

  /** The same call open in two rounds running. */
  lemma AskedAgain(c: Config, w: World, iterations: nat, messages: seq<Message>, next: seq<Message>, id: string)
    requires iterations < c.maxIterations && Following(c, w, iterations, messages) == Some(next)
    requires RoundIds(c, w, iterations, messages) == [id] && RoundIds(c, w, iterations + 1, next) == [id]
    requires EndOf(RunAgent(w, iterations + 1, next)).Complete?
    ensures !RoundsFresh(c, w, iterations, messages, {})
  {
    assert id in [id] && id in {} + set x | x in [id];
  }

  lemma ListOf(calls: seq<ToolCall>)
    ensures AllCalls([Assistant(calls)]) == calls && Completed([Assistant(calls)]) == {}
  {
    assert [Assistant(calls)][..0] == [] && [] + calls == calls;
  }

  lemma {:induction false} NoneOpen(calls: seq<ToolCall>, completed: set<string>)
    requires forall call :: call in calls ==> call.id in completed
    ensures Unanswered(calls, completed) == []
  {
    if calls != [] {
      assert calls == calls[..|calls| - 1] + [calls[|calls| - 1]];
      NoneOpen(calls[..|calls| - 1], completed);
    }
  }

  lemma {:induction false} OpenOf(calls: seq<ToolCall>, tools: set<string>)
    requires forall call :: call in calls ==> call.name in tools
    ensures Unanswered(calls, {}) == calls && Answerable(calls, tools) == calls
  {
    if calls != [] {
      var front := calls[..|calls| - 1];
      assert calls == front + [calls[|calls| - 1]];
      OpenOf(front, tools);
    }
  }

  // ---------------------------------------------------------------- nothing is left hanging

  /** When the loop ends without failure, every MCP call of the conversation has its tool message or has
      just been answered, at the iteration limit too. */
  lemma {:induction false} NothingLeftOpen(c: Config, w: World, iterations: nat, messages: seq<Message>, suppress: bool)
    requires iterations <= c.maxIterations && ContinueRun(c, w, iterations, messages, suppress).end.Complete?
    ensures var o := ContinueRun(c, w, iterations, messages, suppress);
      var reported := o.rounds[|o.rounds| - 1].reported;
      forall call | call in AllCalls(reported) && call.name in c.tools ::
        call.id in Completed(reported) || call.id in Answered(o.output)
    decreases c.maxIterations - iterations
  {
    AnsweredStep(c, w, iterations, messages, suppress);
    var run := RunAgent(w, iterations, messages);
    var reported := Reported(run.items, messages);
    if Continues(c, w, iterations, messages) {
      NothingLeftOpen(c, w, iterations + 1, NextMessages(c, w, iterations, messages), true);
    } else {
      var open := OpenMcpCalls(c, w, iterations, messages);
      forall call | call in AllCalls(reported) && call.name in c.tools && call.id !in Completed(reported)
        ensures call.id in RoundIds(c, w, iterations, messages)
      {
        var i :| 0 <= i < |open| && open[i] == call;
        assert RoundIds(c, w, iterations, messages)[i] == call.id;
      }
    }
  }

  /** The loop from its start. */
  lemma LoopContract(c: Config, w: World, messages: seq<Message>)
    ensures var o := RunLoop(c, w, messages);
      && |o.rounds| <= c.maxIterations + 1
      && FinishesLast(o.output)
      && (!NoError(o.output) ==> NoFinish(o.output))
      && (InnerStarts(RunAgent(w, 0, messages).items) <= 1 ==> Starts(o.output) <= 1)
  {
    RunsAreBounded(c, w, 0, messages, false);
    OutputGrammar(c, w, 0, messages, false);
    StartsOnce(c, w, 0, messages, false);
  }
}
