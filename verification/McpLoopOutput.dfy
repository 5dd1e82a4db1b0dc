/**
 The whole of what the tool loop does, said on the agent's runs alone: what reaches the subscriber and in which
 order, which calls are answered with what, when the agent is run again and how the loop ends.
 */
module McpLoopOutput {
  import opened Wrappers
  import opened Places
  import opened McpLoop
  import opened McpLoopRuns

  // ---------------------------------------------------------------- calls that wait for a result

  // A place is a message and an index in its calls.

  ghost predicate CallAt(messages: seq<Message>, p: Place) {
    p.0 < |messages| && messages[p.0].Assistant? && p.1 < |messages[p.0].calls|
  }

  ghost predicate Answered(messages: seq<Message>, id: string) {
    exists i :: 0 <= i < |messages| && messages[i].ToolMessage? && messages[i].call == id
  }

  /** `at` lists exactly the calls of the messages, in order. */
  ghost predicate ListsCalls(messages: seq<Message>, calls: seq<ToolCall>, at: seq<Place>) {
    && |at| == |calls| && Ordered(at)
    && (forall k :: 0 <= k < |at| ==> CallAt(messages, at[k]) && calls[k] == messages[at[k].0].calls[at[k].1])
    && (forall p: Place :: CallAt(messages, p) ==> p in at)
  }

  lemma {:induction false} AllCallsListed(messages: seq<Message>) returns (at: seq<Place>)
    ensures ListsCalls(messages, AllCalls(messages), at)
  {
    at := [];
    if messages != [] {
      var n := |messages| - 1;
      var front := AllCallsListed(messages[..n]);
      var own := Slots(if messages[n].Assistant? then |messages[n].calls| else 0);
      CallsListedWith(messages[..n], messages[n], AllCalls(messages[..n]), front, own);
      MoreCalls(messages[..n], messages[n]);
      assert messages == messages[..n] + [messages[n]];
      at := front + Placed(n, own);
    }
  }

  lemma MoreCalls(front: seq<Message>, last: Message)
    ensures AllCalls(front + [last]) == AllCalls(front) + if last.Assistant? then last.calls else []
  {
    assert (front + [last])[..|front|] == front;
  }

  lemma CallsListedWith(front: seq<Message>, last: Message, calls: seq<ToolCall>, at: seq<Place>, own: seq<nat>)
    requires ListsCalls(front, calls, at)
    requires |own| == (if last.Assistant? then |last.calls| else 0) && forall k :: 0 <= k < |own| ==> own[k] == k
    ensures ListsCalls(front + [last], calls + (if last.Assistant? then last.calls else []), at + Placed(|front|, own))
  {
    var messages, all := front + [last], at + Placed(|front|, own);
    forall k | 0 <= k < |at| ensures at[k].0 < |front| { assert CallAt(front, at[k]); }
    OrderedAppend(at, Placed(|front|, own), |front|);
    forall p: Place | CallAt(messages, p)
      ensures p in all
    {
      if p.0 < |front| { assert CallAt(front, p); } else { assert all[|at| + p.1] == p; }
    }
    forall k | 0 <= k < |all|
      ensures CallAt(messages, all[k])
    {
      if k < |at| { assert CallAt(front, at[k]); }
    }
  }

  /** A call without a tool message, of a tool the loop has. */
  ghost predicate Waits(messages: seq<Message>, tools: set<string>, p: Place) {
    CallAt(messages, p) && var call := messages[p.0].calls[p.1]; !Answered(messages, call.id) && call.name in tools
  }

  ghost predicate ListsWaiting(messages: seq<Message>, tools: set<string>, calls: seq<ToolCall>, at: seq<Place>) {
    && |at| == |calls| && Ordered(at)
    && (forall k :: 0 <= k < |at| ==> Waits(messages, tools, at[k]) && calls[k] == messages[at[k].0].calls[at[k].1])
    && (forall p: Place :: Waits(messages, tools, p) ==> p in at)
  }

  /** `slots` lists, in order, exactly the calls that are kept. */
  ghost predicate Keeps(calls: seq<ToolCall>, completed: set<string>, tools: set<string>, kept: seq<ToolCall>,
                        slots: seq<nat>)
  {
    && |slots| == |kept| && Ascending(slots)
    && (forall k :: 0 <= k < |slots| ==> slots[k] < |calls| && kept[k] == calls[slots[k]])
    && (forall j: nat :: j in slots <==> j < |calls| && calls[j].id !in completed && calls[j].name in tools)
  }

  lemma KeepsWith(calls: seq<ToolCall>, call: ToolCall, completed: set<string>, tools: set<string>,
                  kept: seq<ToolCall>, slots: seq<nat>)
    requires Keeps(calls, completed, tools, kept, slots)
    ensures if call.id !in completed && call.name in tools
            then Keeps(calls + [call], completed, tools, kept + [call], slots + [|calls|])
            else Keeps(calls + [call], completed, tools, kept, slots)
  {
    forall k | 0 <= k < |slots| ensures slots[k] < |calls| && kept[k] == calls[slots[k]] { assert slots[k] in slots; }
  }

  lemma {:induction false} AnswerableKept(calls: seq<ToolCall>, completed: set<string>, tools: set<string>)
    returns (slots: seq<nat>)
    ensures Keeps(calls, completed, tools, Answerable(Unanswered(calls, completed), tools), slots)
  {
    slots := [];
    if calls != [] {
      var n := |calls| - 1;
      var front := AnswerableKept(calls[..n], completed, tools);
      KeepsWith(calls[..n], calls[n], completed, tools, Answerable(Unanswered(calls[..n], completed), tools), front);
      assert calls == calls[..n] + [calls[n]];
      OneMore(Unanswered(calls[..n], completed), calls[n], tools);
      slots := if calls[n].id !in completed && calls[n].name in tools then front + [n] else front;
    }
  }

  lemma OneMore(open: seq<ToolCall>, call: ToolCall, tools: set<string>)
    ensures Answerable(open + [call], tools) == Answerable(open, tools) + if call.name in tools then [call] else []
  {
    assert (open + [call])[..|open|] == open;
  }

  /** The calls the loop answers after a run: each one that waits, once, in the order of the conversation. */
  lemma WaitingListed(messages: seq<Message>, tools: set<string>) returns (at: seq<Place>)
    ensures ListsWaiting(messages, tools, Answerable(OpenCalls(messages), tools), at)
  {
    var all := AllCallsListed(messages);
    var slots := AnswerableKept(AllCalls(messages), Completed(messages), tools);
    at := seq(|slots|, k requires 0 <= k < |slots| => all[slots[k]]);
    forall id
      ensures id in Completed(messages) <==> Answered(messages, id)
    {
      CompletedByAnswers(messages, id);
    }
    WaitingChosen(messages, tools, AllCalls(messages), all, Answerable(OpenCalls(messages), tools), slots, at);
  }

  lemma WaitingChosen(messages: seq<Message>, tools: set<string>, calls: seq<ToolCall>, all: seq<Place>,
                      kept: seq<ToolCall>, slots: seq<nat>, at: seq<Place>)
    requires ListsCalls(messages, calls, all) && Keeps(calls, Completed(messages), tools, kept, slots)
    requires forall id :: id in Completed(messages) <==> Answered(messages, id)
    requires |at| == |slots| && forall k :: 0 <= k < |at| ==> at[k] == all[slots[k]]
    ensures ListsWaiting(messages, tools, kept, at)
  {
    forall k | 0 <= k < |at|
      ensures Waits(messages, tools, at[k]) && kept[k] == messages[at[k].0].calls[at[k].1]
    {
      assert slots[k] in slots && CallAt(messages, all[slots[k]]);
    }
    forall p: Place | Waits(messages, tools, p)
      ensures p in at
    {
      var j :| 0 <= j < |all| && all[j] == p;
      assert j in slots;
      var k :| 0 <= k < |slots| && slots[k] == j;
      assert at[k] == p;
    }
  }

  // ---------------------------------------------------------------- the rounds

  /** The agent's k-th run. */
  ghost function AgentRun(w: World, iterations: nat, rounds: seq<Round>, k: nat): InnerRun
    requires k < |rounds|
  {
    RunAgent(w, iterations + k, rounds[k].given)
  }

  ghost predicate HasError(run: InnerRun) {
    exists i :: 0 <= i < |run.items| && run.items[i].event.RunError?
  }

  lemma {:induction false} FailedIff(items: seq<Item>)
    ensures Failed(items) <==> exists i :: 0 <= i < |items| && items[i].event.RunError?
  {
    if items != [] {
      var front := items[..|items| - 1];
      FailedIff(front);
      if Failed(front) {
        var i :| 0 <= i < |front| && front[i].event.RunError?;
        assert items[i] == front[i];
      }
      if exists i :: 0 <= i < |items| && items[i].event.RunError? {
        var i :| 0 <= i < |items| && items[i].event.RunError?;
        if i < |front| { assert front[i] == items[i]; }
      }
    }
  }

  /** One round: what the agent reported, and an answer for each call that waits, in order; none when its run
      broke off or reported an error. */
  ghost predicate RoundIs(c: Config, w: World, iterations: nat, round: Round) {
    var run := RunAgent(w, iterations, round.given);
    && round.reported == (if run.items == [] then round.given else run.items[|run.items| - 1].messages)
    && if run.errored || HasError(run) then round.answers == [] else
         exists calls, at ::
           ListsWaiting(round.reported, c.tools, calls, at) && AnswersEach(c, w, iterations, calls, round.answers)
  }

  /** Each call by its own result, or by the limit's once that is reached. */
  ghost predicate AnswersEach(c: Config, w: World, iterations: nat, calls: seq<ToolCall>, answers: seq<Output>) {
    && |answers| == |calls|
    && forall j :: 0 <= j < |calls| ==>
         answers[j] == Answer(calls[j].id, if iterations < c.maxIterations then Execute(w, iterations, calls[j])
                                           else LIMIT_CONTENT)
  }

  /** Every call of the conversation is answered, by a message it has or one of the round. */
  ghost predicate AllDone(messages: seq<Message>, answers: seq<Output>) {
    forall p: Place :: CallAt(messages, p) ==>
      var id := messages[p.0].calls[p.1].id;
      Answered(messages, id) || exists j :: 0 <= j < |answers| && answers[j].Answer? && answers[j].call == id
  }

  /** When the agent is run again: nothing went wrong, a call was answered, the limit is not reached, and no
      call is left. */
  ghost predicate Again(c: Config, w: World, iterations: nat, round: Round) {
    var run := RunAgent(w, iterations, round.given);
    !run.errored && !HasError(run) && round.answers != [] && iterations < c.maxIterations
    && AllDone(round.reported, round.answers)
  }

  lemma RoundIsSo(c: Config, w: World, iterations: nat, messages: seq<Message>)
    ensures var run := RunAgent(w, iterations, messages);
      RoundIs(c, w, iterations,
              Round(messages, Reported(run.items, messages), RoundAnswers(c, w, iterations, messages)))
  {
    var run := RunAgent(w, iterations, messages);
    FailedIff(run.items);
    var at := WaitingListed(Reported(run.items, messages), c.tools);
    if EndOf(run).Complete? {
      assert AnswersEach(c, w, iterations, OpenMcpCalls(c, w, iterations, messages),
                         RoundAnswers(c, w, iterations, messages));
    }
  }

  lemma NoneWaits(messages: seq<Message>)
    ensures OpenCalls(messages) == [] <==> forall p: Place :: CallAt(messages, p) ==>
        Answered(messages, messages[p.0].calls[p.1].id)
  {
    var at := AllCallsListed(messages);
    var calls := AllCalls(messages);
    forall id
      ensures id in Completed(messages) <==> Answered(messages, id)
    {
      CompletedByAnswers(messages, id);
    }
    if OpenCalls(messages) == [] {
      forall p: Place | CallAt(messages, p)
        ensures Answered(messages, messages[p.0].calls[p.1].id)
      {
        var k :| 0 <= k < |at| && at[k] == p;
        assert calls[k] in calls;
        assert calls[k] !in OpenCalls(messages);
      }
    } else {
      var call := OpenCalls(messages)[0];
      assert call in OpenCalls(messages);
      var k :| 0 <= k < |calls| && calls[k] == call;
      assert CallAt(messages, at[k]);
    }
  }

  lemma AnsweredWith(messages: seq<Message>, answers: seq<Output>, id: string)
    requires forall i :: 0 <= i < |answers| ==> answers[i].Answer?
    ensures Answered(messages + ToolMessages(answers), id) <==>
        Answered(messages, id) || exists j :: 0 <= j < |answers| && answers[j].Answer? && answers[j].call == id
  {
    var all := messages + ToolMessages(answers);
    if Answered(all, id) {
      var i :| 0 <= i < |all| && all[i].ToolMessage? && all[i].call == id;
      if i < |messages| { assert messages[i] == all[i]; } else { assert answers[i - |messages|].call == id; }
    }
    if Answered(messages, id) {
      var i :| 0 <= i < |messages| && messages[i].ToolMessage? && messages[i].call == id;
      assert all[i] == messages[i];
    }
    if j :| 0 <= j < |answers| && answers[j].Answer? && answers[j].call == id {
      assert all[|messages| + j].ToolMessage? && all[|messages| + j].call == id;
    }
  }

  lemma AllDoneIff(messages: seq<Message>, answers: seq<Output>)
    requires forall i :: 0 <= i < |answers| ==> answers[i].Answer?
    ensures OpenCalls(messages + ToolMessages(answers)) == [] <==> AllDone(messages, answers)
  {
    var all := messages + ToolMessages(answers);
    NoneWaits(all);
    forall id
      ensures Answered(all, id) <==>
          Answered(messages, id) || exists j :: 0 <= j < |answers| && answers[j].Answer? && answers[j].call == id
    {
      AnsweredWith(messages, answers, id);
    }
    assert forall p: Place :: CallAt(all, p) <==> CallAt(messages, p);
  }

  lemma ContinuesIff(c: Config, w: World, iterations: nat, messages: seq<Message>)
    ensures var run, answers := RunAgent(w, iterations, messages), RoundAnswers(c, w, iterations, messages);
      Continues(c, w, iterations, messages) <==>
        Again(c, w, iterations, Round(messages, Reported(run.items, messages), answers))
  {
    var run, answers := RunAgent(w, iterations, messages), RoundAnswers(c, w, iterations, messages);
    FailedIff(run.items);
    AllDoneIff(Reported(run.items, messages), answers);
  }

  /** The agent is run again, on what it reported and the answers to it. */
  ghost predicate LinkIs(c: Config, w: World, iterations: nat, round: Round, next: Round) {
    && Again(c, w, iterations, round) && (forall j :: 0 <= j < |round.answers| ==> round.answers[j].Answer?)
    && next.given == round.reported + ToolMessages(round.answers)
  }

  ghost predicate RoundsAre(c: Config, w: World, iterations: nat, rounds: seq<Round>) {
    forall k :: 0 <= k < |rounds| ==> RoundIs(c, w, iterations + k, rounds[k])
  }

  ghost predicate LinksAre(c: Config, w: World, iterations: nat, rounds: seq<Round>) {
    forall k :: 0 <= k < |rounds| - 1 ==> LinkIs(c, w, iterations + k, rounds[k], rounds[k + 1])
  }

  /** The run of the loop, round by round: each starts from what the one before reported and the answers to it,
      and the loop ends with the first round after which the agent is not run again, as that round ended. */
  ghost predicate LoopIs(c: Config, w: World, iterations: nat, messages: seq<Message>, o: Outcome) {
    var last := |o.rounds| - 1;
    && o.rounds != [] && o.rounds[0].given == messages
    && RoundsAre(c, w, iterations, o.rounds) && LinksAre(c, w, iterations, o.rounds)
    && !Again(c, w, iterations + last, o.rounds[last])
    && var run := AgentRun(w, iterations, o.rounds, last);
       o.end == if run.errored then Error else if HasError(run) then Fail else Complete
  }

  /** For every agent. */
  lemma {:induction false} LoopIsSo(c: Config, w: World, iterations: nat, messages: seq<Message>, suppress: bool)
    requires iterations <= c.maxIterations
    ensures LoopIs(c, w, iterations, messages, ContinueRun(c, w, iterations, messages, suppress))
    decreases c.maxIterations - iterations
  {
    RoundIsSo(c, w, iterations, messages);
    ContinuesIff(c, w, iterations, messages);
    if Continues(c, w, iterations, messages) {
      LoopIsSo(c, w, iterations + 1, NextMessages(c, w, iterations, messages), true);
      var run, answers := RunAgent(w, iterations, messages), RoundAnswers(c, w, iterations, messages);
      LoopIsLonger(c, w, iterations, Round(messages, Reported(run.items, messages), answers),
                   ContinueRun(c, w, iterations + 1, NextMessages(c, w, iterations, messages), true),
                   ContinueRun(c, w, iterations, messages, suppress));
    } else {
      LoopIsLast(c, w, iterations, messages, suppress);
    }
  }

  lemma LoopIsLast(c: Config, w: World, iterations: nat, messages: seq<Message>, suppress: bool)
    requires iterations <= c.maxIterations && !Continues(c, w, iterations, messages)
    requires var run, answers := RunAgent(w, iterations, messages), RoundAnswers(c, w, iterations, messages);
      var round := Round(messages, Reported(run.items, messages), answers);
      RoundIs(c, w, iterations, round) && !Again(c, w, iterations, round)
    ensures LoopIs(c, w, iterations, messages, ContinueRun(c, w, iterations, messages, suppress))
  {
    FailedIff(RunAgent(w, iterations, messages).items);
  }

  lemma LoopIsLonger(c: Config, w: World, iterations: nat, round: Round, rest: Outcome, o: Outcome)
    requires RoundIs(c, w, iterations, round) && Again(c, w, iterations, round)
    requires forall j :: 0 <= j < |round.answers| ==> round.answers[j].Answer?
    requires LoopIs(c, w, iterations + 1, round.reported + ToolMessages(round.answers), rest)
    requires o.rounds == [round] + rest.rounds && o.end == rest.end
    ensures LoopIs(c, w, iterations, round.given, o)
  {
    var last := |o.rounds| - 1;
    RoundsWith(c, w, iterations, round, rest.rounds);
    LinksWith(c, w, iterations, round, rest.rounds);
    assert iterations + last == iterations + 1 + (last - 1);
    assert o.rounds[last] == rest.rounds[last - 1];
  }

  lemma RoundsWith(c: Config, w: World, iterations: nat, round: Round, rest: seq<Round>)
    requires RoundIs(c, w, iterations, round) && RoundsAre(c, w, iterations + 1, rest)
    ensures RoundsAre(c, w, iterations, [round] + rest)
  {
    var rounds := [round] + rest;
    forall k | 0 <= k < |rounds|
      ensures RoundIs(c, w, iterations + k, rounds[k])
    {
      if k > 0 { assert RoundIs(c, w, iterations + 1 + (k - 1), rest[k - 1]); }
    }
  }

  lemma LinksWith(c: Config, w: World, iterations: nat, round: Round, rest: seq<Round>)
    requires rest != [] && LinkIs(c, w, iterations, round, rest[0]) && LinksAre(c, w, iterations + 1, rest)
    ensures LinksAre(c, w, iterations, [round] + rest)
  {
    var rounds := [round] + rest;
    forall k | 0 <= k < |rounds| - 1
      ensures LinkIs(c, w, iterations + k, rounds[k], rounds[k + 1])
    {
      if k > 0 { assert LinkIs(c, w, iterations + 1 + (k - 1), rest[k - 1], rest[k]); }
    }
  }

  // ---------------------------------------------------------------- what reaches the subscriber

  // The slots of a round: one for each event of the agent, then one for each answer, then one for the finish.

  ghost predicate LastFinish(items: seq<Item>, f: nat) {
    f < |items| && items[f].event.RunFinished? && forall j :: f < j < |items| ==> !items[j].event.RunFinished?
  }

  /** Every event but the finishes goes out, and but the starts when those are suppressed; then every answer;
      and when the round closes the loop, a finish if the run had one. */
  ghost predicate Goes(items: seq<Item>, answers: seq<Output>, suppress: bool, closes: bool, slot: nat) {
    || (slot < |items| && !items[slot].event.RunFinished? && !(suppress && items[slot].event.RunStarted?))
    || |items| <= slot < |items| + |answers|
    || (slot == |items| + |answers| && closes && exists f: nat :: LastFinish(items, f))
  }

  ghost predicate Holds(items: seq<Item>, answers: seq<Output>, slot: nat, o: Output) {
    if slot < |items| then o == Inner(items[slot].event)
    else if slot < |items| + |answers| then o == answers[slot - |items|]
    else exists f: nat :: LastFinish(items, f) && o == Inner(items[f].event)
  }

  /** `slots` lists, in order, exactly what goes out in a round. */
  ghost predicate ListsRound(items: seq<Item>, answers: seq<Output>, suppress: bool, closes: bool,
                             output: seq<Output>, slots: seq<nat>)
  {
    && |slots| == |output| && Ascending(slots)
    && (forall k :: 0 <= k < |slots| ==>
          Goes(items, answers, suppress, closes, slots[k]) && Holds(items, answers, slots[k], output[k]))
    && (forall slot: nat :: Goes(items, answers, suppress, closes, slot) ==> slot in slots)
  }

  lemma ForwardedWith(items: seq<Item>, item: Item, suppress: bool, output: seq<Output>, slots: seq<nat>)
    requires ListsRound(items, [], suppress, false, output, slots)
    ensures if item.event.RunFinished? || (suppress && item.event.RunStarted?)
            then ListsRound(items + [item], [], suppress, false, output, slots)
            else ListsRound(items + [item], [], suppress, false, output + [Inner(item.event)], slots + [|items|])
  {
    forall k | 0 <= k < |slots|
      ensures slots[k] < |items| && Goes(items + [item], [], suppress, false, slots[k])
      ensures Holds(items + [item], [], slots[k], output[k])
    {
      assert Goes(items, [], suppress, false, slots[k]);
    }
    forall slot: nat | slot < |items| && Goes(items + [item], [], suppress, false, slot)
      ensures slot in slots
    {
      assert Goes(items, [], suppress, false, slot);
    }
  }

  lemma {:induction false} ForwardedListed(items: seq<Item>, suppress: bool) returns (slots: seq<nat>)
    ensures ListsRound(items, [], suppress, false, Forwarded(items, suppress), slots)
  {
    slots := [];
    if items != [] {
      var n := |items| - 1;
      var front := ForwardedListed(items[..n], suppress);
      ForwardedWith(items[..n], items[n], suppress, Forwarded(items[..n], suppress), front);
      assert items == items[..n] + [items[n]];
      slots := if items[n].event.RunFinished? || (suppress && items[n].event.RunStarted?) then front else front + [n];
    }
  }

  lemma {:induction false} FinishIs(items: seq<Item>)
    ensures Finish(items) == [] <==> forall f: nat :: !LastFinish(items, f)
    ensures Finish(items) != [] ==>
              |Finish(items)| == 1 && exists f: nat :: LastFinish(items, f) && Finish(items)[0] == Inner(items[f].event)
  {
    if items != [] {
      var n := |items| - 1;
      var front := items[..n];
      FinishIs(front);
      if items[n].event.RunFinished? {
        assert LastFinish(items, n);
      } else {
        forall f: nat ensures LastFinish(items, f) <==> LastFinish(front, f) {
          assert forall j :: 0 <= j < n ==> items[j] == front[j];
        }
      }
    }
  }

  /** What the loop sends in one round. */
  lemma RoundListed(items: seq<Item>, answers: seq<Output>, suppress: bool, closes: bool) returns (slots: seq<nat>)
    ensures ListsRound(items, answers, suppress, closes,
                       Forwarded(items, suppress) + answers + if closes then Finish(items) else [], slots)
  {
    var front := ForwardedListed(items, suppress);
    var finish := if closes then Finish(items) else [];
    FinishIs(items);
    var more := seq(|answers| + |finish|, k requires 0 <= k => |items| + k);
    slots := front + more;
    var output := Forwarded(items, suppress) + answers + finish;
    forall k | 0 <= k < |slots|
      ensures Goes(items, answers, suppress, closes, slots[k]) && Holds(items, answers, slots[k], output[k])
      ensures k < |front| ==> slots[k] < |items|
    {
      if k < |front| { assert Goes(items, [], suppress, false, front[k]); }
    }
    forall slot: nat | Goes(items, answers, suppress, closes, slot)
      ensures slot in slots
    {
      if slot < |items| {
        assert Goes(items, [], suppress, false, slot);
      } else {
        assert slots[|front| + (slot - |items|)] == slot;
      }
    }
  }

  // A place is a round and a slot in it.

  ghost predicate GoesOut(w: World, iterations: nat, o: Outcome, suppress: bool, p: Place) {
    p.0 < |o.rounds| &&
    Goes(AgentRun(w, iterations, o.rounds, p.0).items, o.rounds[p.0].answers, suppress || p.0 > 0,
         p.0 == |o.rounds| - 1 && o.end.Complete?, p.1)
  }

  /** `at` lists, round by round and in the order of the slots, exactly what goes out. */
  ghost predicate ListsOutput(w: World, iterations: nat, o: Outcome, suppress: bool, at: seq<Place>) {
    && |at| == |o.output| && Ordered(at)
    && (forall k :: 0 <= k < |at| ==>
          && GoesOut(w, iterations, o, suppress, at[k])
          && Holds(AgentRun(w, iterations, o.rounds, at[k].0).items, o.rounds[at[k].0].answers, at[k].1, o.output[k]))
    && (forall p: Place :: GoesOut(w, iterations, o, suppress, p) ==> p in at)
  }

  lemma ListsFirst(w: World, iterations: nat, o: Outcome, suppress: bool, slots: seq<nat>)
    requires |o.rounds| == 1
    requires ListsRound(AgentRun(w, iterations, o.rounds, 0).items, o.rounds[0].answers, suppress, o.end.Complete?,
                        o.output, slots)
    ensures ListsOutput(w, iterations, o, suppress, Placed(0, slots))
  {
    var at := Placed(0, slots);
    forall p: Place | GoesOut(w, iterations, o, suppress, p)
      ensures p in at
    {
      var k :| 0 <= k < |slots| && slots[k] == p.1;
      assert at[k] == p;
    }
  }

  /** A round behind the first is a round of the rest. */
  lemma LaterRound(w: World, iterations: nat, o: Outcome, rest: Outcome, suppress: bool, p: Place)
    requires o.rounds != [] && rest.rounds != [] && o.rounds[1..] == rest.rounds && o.end == rest.end
    ensures GoesOut(w, iterations, o, suppress, (p.0 + 1, p.1)) <==> GoesOut(w, iterations + 1, rest, true, p)
    ensures p.0 < |rest.rounds| ==>
              && AgentRun(w, iterations, o.rounds, p.0 + 1) == AgentRun(w, iterations + 1, rest.rounds, p.0)
              && o.rounds[p.0 + 1] == rest.rounds[p.0]
  {
    if p.0 < |rest.rounds| { assert o.rounds[1..][p.0] == o.rounds[p.0 + 1]; }
  }

  lemma ListsLonger(w: World, iterations: nat, o: Outcome, suppress: bool, front: seq<Output>, slots: seq<nat>,
                    rest: Outcome, at: seq<Place>)
    requires o.rounds != [] && rest.rounds != [] && o.rounds[1..] == rest.rounds && o.output == front + rest.output
    requires o.end == rest.end && ListsOutput(w, iterations + 1, rest, true, at)
    requires ListsRound(AgentRun(w, iterations, o.rounds, 0).items, o.rounds[0].answers, suppress, false, front, slots)
    ensures ListsOutput(w, iterations, o, suppress, Placed(0, slots) + Behind(at))
  {
    var all := Placed(0, slots) + Behind(at);
    OrderedAppend(Placed(0, slots), Behind(at), 1);
    forall p: Place | GoesOut(w, iterations, o, suppress, p)
      ensures p in all
    {
      GoingIsListed(w, iterations, o, suppress, front, slots, rest, at, p);
    }
    forall k | 0 <= k < |all|
      ensures GoesOut(w, iterations, o, suppress, all[k])
      ensures Holds(AgentRun(w, iterations, o.rounds, all[k].0).items, o.rounds[all[k].0].answers, all[k].1,
                    o.output[k])
    {
      ListedGoes(w, iterations, o, suppress, front, slots, rest, at, k);
    }
  }

  lemma GoingIsListed(w: World, iterations: nat, o: Outcome, suppress: bool, front: seq<Output>, slots: seq<nat>,
                      rest: Outcome, at: seq<Place>, p: Place)
    requires o.rounds != [] && rest.rounds != [] && o.rounds[1..] == rest.rounds && o.end == rest.end
    requires ListsOutput(w, iterations + 1, rest, true, at)
    requires ListsRound(AgentRun(w, iterations, o.rounds, 0).items, o.rounds[0].answers, suppress, false, front, slots)
    requires GoesOut(w, iterations, o, suppress, p)
    ensures p in Placed(0, slots) + Behind(at)
  {
    if p.0 == 0 {
      assert p.1 in slots;
      PlacedHas(slots, at, p);
    } else {
      LaterRound(w, iterations, o, rest, suppress, (p.0 - 1, p.1));
      assert (p.0 - 1, p.1) in at;
      PlacedHas(slots, at, p);
    }
  }

  lemma PlacedHas(slots: seq<nat>, at: seq<Place>, p: Place)
    requires if p.0 == 0 then p.1 in slots else (p.0 - 1, p.1) in at
    ensures p in Placed(0, slots) + Behind(at)
  {
    var all := Placed(0, slots) + Behind(at);
    if p.0 == 0 {
      var k :| 0 <= k < |slots| && slots[k] == p.1;
      assert all[k] == p;
    } else {
      var k :| 0 <= k < |at| && at[k] == (p.0 - 1, p.1);
      assert all[|slots| + k] == p;
    }
  }

  lemma ListedGoes(w: World, iterations: nat, o: Outcome, suppress: bool, front: seq<Output>, slots: seq<nat>,
                   rest: Outcome, at: seq<Place>, k: nat)
    requires o.rounds != [] && rest.rounds != [] && o.rounds[1..] == rest.rounds && o.output == front + rest.output
    requires o.end == rest.end && ListsOutput(w, iterations + 1, rest, true, at)
    requires ListsRound(AgentRun(w, iterations, o.rounds, 0).items, o.rounds[0].answers, suppress, false, front, slots)
    requires k < |slots| + |at|
    ensures var p := (Placed(0, slots) + Behind(at))[k];
      && GoesOut(w, iterations, o, suppress, p)
      && Holds(AgentRun(w, iterations, o.rounds, p.0).items, o.rounds[p.0].answers, p.1, o.output[k])
  {
    if k < |slots| {
      assert Goes(AgentRun(w, iterations, o.rounds, 0).items, o.rounds[0].answers, suppress, false, slots[k]);
    } else {
      LaterRound(w, iterations, o, rest, suppress, at[k - |slots|]);
      assert o.output[k] == rest.output[k - |slots|];
    }
  }

  /** For every agent: the subscriber gets every event of every run, in order, but no finish and no start after
      the first run; behind each run's events the answers to it; and at the very end the last finish of the last
      run, when that run and the loop end well. Nothing is dropped, repeated or moved. */
  lemma {:induction false} OutputListed(c: Config, w: World, iterations: nat, messages: seq<Message>, suppress: bool)
    returns (at: seq<Place>)
    requires iterations <= c.maxIterations
    ensures ListsOutput(w, iterations, ContinueRun(c, w, iterations, messages, suppress), suppress, at)
    decreases c.maxIterations - iterations
  {
    var o := ContinueRun(c, w, iterations, messages, suppress);
    var items, answers := RunAgent(w, iterations, messages).items, RoundAnswers(c, w, iterations, messages);
    if Continues(c, w, iterations, messages) {
      var next := NextMessages(c, w, iterations, messages);
      var slots := RoundListed(items, answers, suppress, false);
      var later := OutputListed(c, w, iterations + 1, next, true);
      var front := Forwarded(items, suppress) + answers;
      assert front + [] == front;
      ListsLonger(w, iterations, o, suppress, front, slots, ContinueRun(c, w, iterations + 1, next, true), later);
      at := Placed(0, slots) + Behind(later);
    } else {
      var slots := RoundListed(items, answers, suppress, EndOf(RunAgent(w, iterations, messages)).Complete?);
      ListsFirst(w, iterations, o, suppress, slots);
      at := Placed(0, slots);
    }
  }
}
