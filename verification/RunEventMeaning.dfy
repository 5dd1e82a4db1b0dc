/**
 What each emitted event adds to the delivered log, said on the events alone: when a plan snapshot is due, and
 which missing results precede the end of a run.
 */
module RunEventMeaning {
  import opened Wrappers
  import opened RunEvents
  import opened RunEventContract

  // ---------------------------------------------------------------- what the projector knows

  /** A start or a result that the projector takes note of. */
  ghost predicate Touches(e: Event, id: string) {
    || (e.ToolStart? && e.id == Text(id) && e.name.Some?)
    || (e.ToolResult? && e.id == Text(id) && e.content.Some?)
  }

  /** The last start of the call, not followed by a result of it, named this tool. */
  ghost predicate KnownAs(events: seq<Event>, id: string, name: string) {
    exists i :: 0 <= i < |events| && events[i] == ToolStart(Text(id), Some(name))
                && forall j :: i < j < |events| ==> !Touches(events[j], id)
  }

  lemma KnownAfter(events: seq<Event>, e: Event, id: string, name: string)
    ensures KnownAs(events + [e], id, name) <==>
        e == ToolStart(Text(id), Some(name)) || (KnownAs(events, id, name) && !Touches(e, id))
  {
    var longer := events + [e];
    if KnownAs(longer, id, name) {
      var i :| 0 <= i < |longer| && longer[i] == ToolStart(Text(id), Some(name))
               && forall j :: i < j < |longer| ==> !Touches(longer[j], id);
      if i < |events| {
        assert !Touches(longer[|events|], id);
        assert forall j :: i < j < |events| ==> events[j] == longer[j];
      }
    }
    if e == ToolStart(Text(id), Some(name)) {
      assert longer[|events|] == e;
    } else if KnownAs(events, id, name) && !Touches(e, id) {
      var i :| 0 <= i < |events| && events[i] == ToolStart(Text(id), Some(name))
               && forall j :: i < j < |events| ==> !Touches(events[j], id);
      assert longer[i] == ToolStart(Text(id), Some(name));
    }
  }

  /** The task list the event brings: it is a result, with a string id and string content, of a call known under
      the name of a task tool, and its content reads as tasks. */
  ghost function TasksAt(read: TaskReader, events: seq<Event>, i: nat): Option<string>
    requires i < |events|
  {
    var e := events[i];
    if e.ToolResult? && e.id.Text? && e.content.Some? && OfTaskTool(events[..i], e.id.text) then read(e.content.value)
    else None
  }

  ghost predicate OfTaskTool(events: seq<Event>, id: string) {
    || KnownAs(events, id, "task_write") || KnownAs(events, id, "task_update")
    || KnownAs(events, id, "task_complete") || KnownAs(events, id, "task_check")
  }

  /** The last task list the events bring. */
  ghost predicate LastTasks(read: TaskReader, events: seq<Event>, tasks: Option<string>) {
    match tasks
    case None => forall i :: 0 <= i < |events| ==> TasksAt(read, events, i).None?
    case Some(_) =>
      exists i :: 0 <= i < |events| && TasksAt(read, events, i) == tasks
                  && forall j :: i < j < |events| ==> TasksAt(read, events, j).None?
  }

  lemma LastTasksAfter(read: TaskReader, events: seq<Event>, e: Event, tasks: Option<string>)
    requires LastTasks(read, events, tasks)
    ensures var brought := TasksAt(read, events + [e], |events|);
      LastTasks(read, events + [e], if brought.Some? then brought else tasks)
  {
    var longer := events + [e];
    forall i | 0 <= i < |events| ensures TasksAt(read, longer, i) == TasksAt(read, events, i) {
      assert longer[..i] == events[..i];
    }
    var brought := TasksAt(read, longer, |events|);
    if brought.None? && tasks.Some? {
      var i :| 0 <= i < |events| && TasksAt(read, events, i) == tasks
               && forall j :: i < j < |events| ==> TasksAt(read, events, j).None?;
      assert TasksAt(read, longer, i) == tasks;
    }
  }

  lemma LastTasksIsOne(read: TaskReader, events: seq<Event>, a: Option<string>, b: Option<string>)
    requires LastTasks(read, events, a) && LastTasks(read, events, b)
    ensures a == b
  {
    if a.Some? && b.Some? {
      var i :| 0 <= i < |events| && TasksAt(read, events, i) == a
               && forall j :: i < j < |events| ==> TasksAt(read, events, j).None?;
      var k :| 0 <= k < |events| && TasksAt(read, events, k) == b
               && forall j :: k < j < |events| ==> TasksAt(read, events, j).None?;
      assert i == k;
    }
  }

  ghost predicate NamesKnown(names: map<string, string>, events: seq<Event>) {
    forall id, name :: (id in names && names[id] == name) <==> KnownAs(events, id, name)
  }

  /** The projector's memory, and which ids were answered, as the events say. */
  ghost predicate Remembers(p: Pipeline, read: TaskReader, events: seq<Event>) {
    && !p.projecting && NamesKnown(p.toolNames, events) && LastTasks(read, events, p.lastPlan)
    && (forall text :: text in p.delivered <==> TextAnswered(p.sunk, text))
  }

  /** A result under this string id was delivered. */
  ghost predicate TextAnswered(log: seq<Event>, text: string) {
    exists i :: 0 <= i < |log| && Tracked(log[i]) && log[i].id.text == text
  }

  // ---------------------------------------------------------------- plans

  lemma NamesAfter(p: Pipeline, read: TaskReader, events: seq<Event>, e: Event)
    requires NamesKnown(p.toolNames, events)
    ensures NamesKnown(ObserveTask(p, read, e).0.toolNames, events + [e])
  {
    var names := ObserveTask(p, read, e).0.toolNames;
    forall id, name
      ensures (id in names && names[id] == name) <==> KnownAs(events + [e], id, name)
    {
      KnownAfter(events, e, id, name);
      assert (id in p.toolNames && p.toolNames[id] == name) <==> KnownAs(events, id, name);
    }
  }

  /** The projector answers an event with a plan exactly when the event brings tasks that are not the last ones. */
  lemma PlanIsDue(p: Pipeline, read: TaskReader, events: seq<Event>, e: Event)
    requires NamesKnown(p.toolNames, events) && LastTasks(read, events, p.lastPlan)
    ensures var (after, projected) := ObserveTask(p, read, e);
      var brought := TasksAt(read, events + [e], |events|);
      && projected == (if brought.Some? && brought != p.lastPlan then [Plan(brought.value)] else [])
      && after == p.(toolNames := after.toolNames, lastPlan := if brought.Some? then brought else p.lastPlan)
  {
    assert (events + [e])[..|events|] == events;
    if e.ToolResult? && e.id.Text? && e.content.Some? { TaskToolKnown(p.toolNames, events, e.id.text); }
  }

  lemma TaskToolKnown(names: map<string, string>, events: seq<Event>, id: string)
    requires NamesKnown(names, events)
    ensures OfTaskTool(events, id) <==> id in names && names[id] in TASK_TOOLS
  {
    if id in names { assert KnownAs(events, id, names[id]); }
    assert KnownAs(events, id, "task_write") ==> id in names && names[id] == "task_write";
    assert KnownAs(events, id, "task_update") ==> id in names && names[id] == "task_update";
    assert KnownAs(events, id, "task_complete") ==> id in names && names[id] == "task_complete";
    assert KnownAs(events, id, "task_check") ==> id in names && names[id] == "task_check";
  }

  lemma AnsweredAfter(log: seq<Event>, e: Event, text: string)
    ensures TextAnswered(log + [e], text) <==> TextAnswered(log, text) || (Tracked(e) && e.id.text == text)
  {
    var longer := log + [e];
    if TextAnswered(log, text) {
      var i :| 0 <= i < |log| && Tracked(log[i]) && log[i].id.text == text;
      assert Tracked(longer[i]);
    }
    if Tracked(e) { assert Tracked(longer[|log|]); }
  }

  ghost predicate DeliveredKnown(p: Pipeline) {
    forall text :: text in p.delivered <==> TextAnswered(p.sunk, text)
  }

  lemma DeliverKnown(p: Pipeline, e: Event)
    requires DeliveredKnown(p)
    ensures DeliveredKnown(Deliver(p, e))
  {
    forall text ensures text in Deliver(p, e).delivered <==> TextAnswered(Deliver(p, e).sunk, text) {
      AnsweredAfter(p.sunk, e, text);
    }
  }

  lemma {:induction false} DeliverAllKnown(p: Pipeline, events: seq<Event>)
    requires DeliveredKnown(p)
    ensures DeliveredKnown(DeliverAll(p, events))
    ensures DeliverAll(p, events) ==
              p.(delivered := DeliverAll(p, events).delivered, persisted := DeliverAll(p, events).persisted,
                 sunk := DeliverAll(p, events).sunk)
  {
    if events != [] {
      DeliverAllKnown(p, events[..|events| - 1]);
      DeliverKnown(DeliverAll(p, events[..|events| - 1]), events[|events| - 1]);
    }
  }

  lemma PassKnown(p: Pipeline, e: Event)
    requires DeliveredKnown(p)
    ensures DeliveredKnown(Pass(p, e))
    ensures Pass(p, e).toolNames == p.toolNames && Pass(p, e).lastPlan == p.lastPlan
    ensures Pass(p, e).projecting == p.projecting
  {
    var closed := if e.Terminal? then Flush(p) else p;
    if e.Terminal? { DeliverAllKnown(p.(pending := AllMarked(p.pending)), FlushedResults(p.pending)); }
    DeliverKnown(closed, e);
  }

  /** An event passes, and then the plan it makes due. */
  lemma EmitPasses(p: Pipeline, read: TaskReader, events: seq<Event>, e: Event)
    requires Remembers(p, read, events)
    ensures var brought := TasksAt(read, events + [e], |events|);
      && Emit(p, read, e).sunk == Pass(p, e).sunk
           + (if brought.Some? && brought != p.lastPlan then [Plan(brought.value)] else [])
      && Emit(p, read, e).lastPlan == (if brought.Some? then brought else p.lastPlan)
      && Remembers(Emit(p, read, e), read, events + [e])
  {
    var passed := Pass(p, e);
    PassKnown(p, e);
    PlanIsDue(passed, read, events, e);
    NamesAfter(passed, read, events, e);
    LastTasksAfter(read, events, e, p.lastPlan);
    var (observed, projected) := ObserveTask(passed, read, e);
    if projected != [] {
      assert projected[..0] == [] && PassAll(observed.(projecting := true), []) == observed.(projecting := true);
      PassKnown(observed.(projecting := true), projected[0]);
    }
  }

  lemma {:induction false} EveryRunRemembers(prior: seq<Event>, read: TaskReader, events: seq<Event>)
    ensures Remembers(EmitAll(prior, read, events), read, events)
  {
    if events == [] {
      assert forall id, name :: !KnownAs([], id, name);
      assert forall text :: !TextAnswered([], text);
    } else {
      var front, last := events[..|events| - 1], events[|events| - 1];
      EveryRunRemembers(prior, read, front);
      EmitPasses(EmitAll(prior, read, front), read, front, last);
      assert events == front + [last];
    }
  }

  /** Over every run: an event that does not end it adds itself, unless it is a result under a string id that was
      answered before, and then a plan if and only if it brings tasks that differ from the last ones brought. */
  lemma PlanIffDue(prior: seq<Event>, read: TaskReader, events: seq<Event>, e: Event, last: Option<string>)
    requires !e.Terminal? && LastTasks(read, events, last)
    ensures var before, after := EmitAll(prior, read, events).sunk, EmitAll(prior, read, events + [e]).sunk;
      var brought := TasksAt(read, events + [e], |events|);
      after == before
        + (if Tracked(e) && TextAnswered(before, e.id.text) then [] else [e])
        + (if brought.Some? && brought != last then [Plan(brought.value)] else [])
  {
    var p := EmitAll(prior, read, events);
    EveryRunRemembers(prior, read, events);
    LastTasksIsOne(read, events, last, p.lastPlan);
    assert (events + [e])[..|events|] == events;
    EmitPasses(p, read, events, e);
  }

  /** The last plan of a log. */
  ghost predicate LastPlan(log: seq<Event>, tasks: Option<string>) {
    match tasks
    case None => forall i :: 0 <= i < |log| ==> !log[i].Plan?
    case Some(text) =>
      exists i :: 0 <= i < |log| && log[i] == Plan(text) && forall j :: i < j < |log| ==> !log[j].Plan?
  }

  lemma LastPlanAfter(log: seq<Event>, more: seq<Event>, tasks: Option<string>)
    requires LastPlan(log, tasks) && forall i :: 0 <= i < |more| ==> !more[i].Plan?
    ensures LastPlan(log + more, tasks)
  {
    if tasks.Some? {
      var i :| 0 <= i < |log| && log[i] == Plan(tasks.value) && forall j :: i < j < |log| ==> !log[j].Plan?;
      assert (log + more)[i] == Plan(tasks.value);
    }
  }

  lemma {:induction false} DeliverAllAdds(p: Pipeline, events: seq<Event>)
    requires forall i :: 0 <= i < |events| ==> events[i].ToolResult?
    ensures var after := DeliverAll(p, events).sunk;
      |p.sunk| <= |after| && after[..|p.sunk|] == p.sunk && forall i :: |p.sunk| <= i < |after| ==> after[i].ToolResult?
  {
    if events != [] { DeliverAllAdds(p, events[..|events| - 1]); }
  }

  lemma PassAddsNoPlan(p: Pipeline, e: Event)
    requires !e.Plan?
    ensures var after := Pass(p, e).sunk;
      |p.sunk| <= |after| && after[..|p.sunk|] == p.sunk && forall i :: |p.sunk| <= i < |after| ==> !after[i].Plan?
  {
    if e.Terminal? {
      FlushedAreResults(p.pending);
      DeliverAllAdds(p.(pending := AllMarked(p.pending)), FlushedResults(p.pending));
    }
  }

  /** When no plan is emitted from outside, the last tasks brought are those of the last plan in the log, so a plan
      is due exactly when it would differ from the last one. */
  lemma {:induction false} LastPlanShowsLastTasks(prior: seq<Event>, read: TaskReader, events: seq<Event>)
    requires forall i :: 0 <= i < |events| ==> !events[i].Plan?
    ensures LastTasks(read, events, EmitAll(prior, read, events).lastPlan)
    ensures LastPlan(EmitAll(prior, read, events).sunk, EmitAll(prior, read, events).lastPlan)
  {
    EveryRunRemembers(prior, read, events);
    if events != [] {
      var front, e := events[..|events| - 1], events[|events| - 1];
      var p, q := EmitAll(prior, read, front), EmitAll(prior, read, events);
      LastPlanShowsLastTasks(prior, read, front);
      EveryRunRemembers(prior, read, front);
      EmitPasses(p, read, front, e);
      assert events == front + [e];
      PassAddsNoPlan(p, e);
      var passed := Pass(p, e).sunk;
      LastPlanAfter(p.sunk, passed[|p.sunk|..], p.lastPlan);
      assert passed == p.sunk + passed[|p.sunk|..];
      if q.sunk != passed { assert q.sunk[|passed|] == Plan(q.lastPlan.value); }
    }
  }

  // ---------------------------------------------------------------- missing results

  /** The result that stands in for the one a call never got. */
  ghost function MissingFor(end: Event): Event
    requires end.ToolEnd?
  {
    ToolResult(Text(Key(end.id)), Some(if end.name.Some? && end.name.value != "" then end.name.value else "unknown"),
               Some("TOOL_RESULT_NOT_DELIVERED"))
  }

  ghost predicate Ended(e: Event) {
    e.ToolEnd? && Key(e.id) != ""
  }

  /** Where the calls end. */
  ghost function EndsAt(log: seq<Event>): (at: seq<nat>)
    ensures forall n :: 0 <= n < |at| ==> at[n] < |log| && Ended(log[at[n]])
    ensures forall i, n :: 0 <= i < n < |at| ==> at[i] < at[n]
    ensures forall i: nat :: i < |log| && Ended(log[i]) ==> i in at
  {
    if log == [] then []
    else
      var n := |log| - 1;
      EndsAt(log[..n]) + if Ended(log[n]) then [n] else []
  }

  /** The bridge keeps one entry per ended call, in order. */
  ghost predicate BridgeFollows(pending: seq<PendingCall>, log: seq<Event>) {
    && |pending| == |EndsAt(log)|
    && forall n :: 0 <= n < |pending| ==>
         && pending[n].key == Key(log[EndsAt(log)[n]].id)
         && MissingResult(pending[n]) == MissingFor(log[EndsAt(log)[n]])
  }

  ghost predicate ResultAfter(log: seq<Event>, i: nat, key: string) {
    exists j :: i < j < |log| && ResultFor(log[j], key)
  }

  /** No entry before the n-th is for the same call. */
  ghost predicate FirstEntry(pending: seq<PendingCall>, n: nat)
    requires n < |pending|
  {
    forall m :: 0 <= m < n ==> pending[m].key != pending[n].key
  }

  /** The entry for an end at `i`, of a call that was not answered under its string id, is marked exactly when it
      is the first one of its call and a result came behind that end. */
  ghost predicate Marked(pending: seq<PendingCall>, n: nat, log: seq<Event>, i: nat)
    requires n < |pending|
  {
    !TextAnswered(log, pending[n].key) ==>
      (pending[n].hasResult <==> FirstEntry(pending, n) && ResultAfter(log, i, pending[n].key))
  }

  ghost predicate BridgeMarks(pending: seq<PendingCall>, log: seq<Event>) {
    && |pending| == |EndsAt(log)|
    && forall n :: 0 <= n < |pending| ==> Marked(pending, n, log, EndsAt(log)[n])
  }

  lemma EndsAfter(log: seq<Event>, e: Event)
    ensures EndsAt(log + [e]) == EndsAt(log) + if Ended(e) then [|log|] else []
  {
    assert (log + [e])[..|log|] == log;
  }

  lemma {:induction false} EndsAppend(a: seq<Event>, b: seq<Event>)
    requires forall i :: 0 <= i < |b| ==> !b[i].ToolEnd?
    ensures EndsAt(a + b) == EndsAt(a)
    decreases |b|
  {
    if b == [] {
      assert a + b == a;
    } else {
      var front, last := b[..|b| - 1], b[|b| - 1];
      assert a + b == a + front + [last];
      EndsAppend(a, front);
      EndsAfter(a + front, last);
    }
  }

  lemma {:induction false} MarkFirstIs(pending: seq<PendingCall>, key: string)
    ensures var after := MarkFirst(pending, key);
      && |after| == |pending|
      && forall n :: 0 <= n < |pending| ==>
           after[n] == if pending[n].key == key && FirstEntry(pending, n) then pending[n].(hasResult := true)
                       else pending[n]
  {
    if pending != [] {
      if pending[0].key == key {
        assert FirstEntry(pending, 0);
      } else {
        MarkFirstIs(pending[1..], key);
        forall n | 1 <= n < |pending| && pending[n].key == key
          ensures FirstEntry(pending, n) <==> FirstEntry(pending[1..], n - 1)
        {
          assert forall m :: 1 <= m < n ==> pending[m] == pending[1..][m - 1];
        }
      }
    }
  }

  lemma TextAnsweredStays(log: seq<Event>, more: seq<Event>, text: string)
    requires TextAnswered(log, text)
    ensures TextAnswered(log + more, text)
  {
    var i :| 0 <= i < |log| && Tracked(log[i]) && log[i].id.text == text;
    assert Tracked((log + more)[i]);
  }

  lemma ResultAfterLonger(log: seq<Event>, e: Event, i: nat, key: string)
    requires i < |log|
    ensures ResultAfter(log + [e], i, key) <==> ResultAfter(log, i, key) || ResultFor(e, key)
  {
    var longer := log + [e];
    if ResultAfter(log, i, key) {
      var j :| i < j < |log| && ResultFor(log[j], key);
      assert ResultFor(longer[j], key);
    }
    if ResultFor(e, key) { assert ResultFor(longer[|log|], key); }
  }

  lemma SameFirst(a: seq<PendingCall>, b: seq<PendingCall>, n: nat)
    requires n < |a| && n < |b| && forall m :: 0 <= m <= n ==> a[m].key == b[m].key
    ensures FirstEntry(a, n) <==> FirstEntry(b, n)
  {
  }

  lemma ObservedKeys(pending: seq<PendingCall>, e: Event)
    ensures |BridgeObserve(pending, e)| == |pending| + if Ended(e) then 1 else 0
    ensures forall n :: 0 <= n < |pending| ==> BridgeObserve(pending, e)[n] == pending[n].(
        hasResult := pending[n].hasResult || (ResultFor(e, pending[n].key) && FirstEntry(pending, n)))
  {
    if e.ToolResult? && Truthy(e.id) { MarkFirstIs(pending, Key(e.id)); }
  }

  lemma MarkedAfter(pending: seq<PendingCall>, log: seq<Event>, e: Event, n: nat, i: nat)
    requires n < |pending| && i < |log| && Marked(pending, n, log, i)
    ensures |pending| <= |BridgeObserve(pending, e)| && Marked(BridgeObserve(pending, e), n, log + [e], i)
  {
    var key := pending[n].key;
    ObservedKeys(pending, e);
    SameFirst(pending, BridgeObserve(pending, e), n);
    ResultAfterLonger(log, e, i, key);
    if TextAnswered(log, key) { TextAnsweredStays(log, [e], key); }
  }

  lemma FollowsAfter(pending: seq<PendingCall>, log: seq<Event>, e: Event)
    requires BridgeFollows(pending, log)
    ensures BridgeFollows(BridgeObserve(pending, e), log + [e])
  {
    EndsAfter(log, e);
    ObservedKeys(pending, e);
  }

  /** An event that is delivered and then observed. */
  lemma BridgeAfter(pending: seq<PendingCall>, log: seq<Event>, e: Event)
    requires BridgeFollows(pending, log) && BridgeMarks(pending, log)
    ensures BridgeFollows(BridgeObserve(pending, e), log + [e]) && BridgeMarks(BridgeObserve(pending, e), log + [e])
  {
    var after, longer := BridgeObserve(pending, e), log + [e];
    FollowsAfter(pending, log, e);
    EndsAfter(log, e);
    ObservedKeys(pending, e);
    forall n | 0 <= n < |after|
      ensures Marked(after, n, longer, EndsAt(longer)[n])
    {
      if n < |pending| { MarkedAfter(pending, log, e, n, EndsAt(log)[n]); }
    }
  }

  /** A result that is observed though it was dropped: its call was answered under its string id. */
  lemma BridgeAfterDropped(pending: seq<PendingCall>, log: seq<Event>, key: string)
    requires BridgeFollows(pending, log) && BridgeMarks(pending, log) && TextAnswered(log, key)
    ensures BridgeFollows(MarkFirst(pending, key), log) && BridgeMarks(MarkFirst(pending, key), log)
  {
    MarkFirstIs(pending, key);
    var after := MarkFirst(pending, key);
    forall n | 0 <= n < |after|
      ensures Marked(after, n, log, EndsAt(log)[n])
    {
      SameFirst(pending, after, n);
      assert Marked(pending, n, log, EndsAt(log)[n]);
    }
  }

  lemma {:induction false} AllDelivered(p: Pipeline, events: seq<Event>)
    ensures p.delivered <= DeliverAll(p, events).delivered
    ensures forall i :: 0 <= i < |events| && Tracked(events[i]) ==> events[i].id.text in DeliverAll(p, events).delivered
  {
    if events != [] { AllDelivered(p, events[..|events| - 1]); }
  }

  ghost predicate BridgeKnown(p: Pipeline) {
    && DeliveredKnown(p) && BridgeFollows(p.pending, p.sunk) && BridgeMarks(p.pending, p.sunk)
    && BridgeSound(p.pending, p.sunk)
  }

  lemma FlushedTracked(p: Pipeline)
    requires BridgeSound(p.pending, p.sunk)
    ensures forall i :: 0 <= i < |FlushedResults(p.pending)| ==>
              Tracked(FlushedResults(p.pending)[i]) && OwedBy(p.pending, FlushedResults(p.pending)[i])
  {
    var flushed := FlushedResults(p.pending);
    MarkedAndFlushed(p.pending);
    forall i | 0 <= i < |flushed|
      ensures Tracked(flushed[i]) && OwedBy(p.pending, flushed[i])
    {
      assert flushed[i] in flushed && OwedBy(p.pending, flushed[i]);
    }
  }

  /** A flush only adds results to the log, and marks every entry. */
  lemma FlushGrows(p: Pipeline)
    ensures var q := Flush(p);
      && |p.sunk| <= |q.sunk| && q.sunk == p.sunk + q.sunk[|p.sunk|..] && q.pending == AllMarked(p.pending)
      && EndsAt(q.sunk) == EndsAt(p.sunk)
  {
    var marked := p.(pending := AllMarked(p.pending));
    FlushedAreResults(p.pending);
    DeliverAllAdds(marked, FlushedResults(p.pending));
    DeliverAllKeepsRest(marked, FlushedResults(p.pending));
    var after := Flush(p).sunk;
    assert after == p.sunk + after[|p.sunk|..];
    EndsAppend(p.sunk, after[|p.sunk|..]);
  }

  lemma {:induction false} DeliverAllKeepsRest(p: Pipeline, events: seq<Event>)
    ensures DeliverAll(p, events).projecting == p.projecting && DeliverAll(p, events).pending == p.pending
  {
    if events != [] { DeliverAllKeepsRest(p, events[..|events| - 1]); }
  }

  lemma FlushShape(p: Pipeline)
    requires BridgeKnown(p)
    ensures var q := Flush(p);
      && |p.sunk| <= |q.sunk| && q.sunk == p.sunk + q.sunk[|p.sunk|..] && EndsAt(q.sunk) == EndsAt(p.sunk)
      && |q.pending| == |p.pending| && DeliveredKnown(q)
      && forall n :: 0 <= n < |p.pending| ==> q.pending[n] == p.pending[n].(hasResult := true)
  {
    FlushGrows(p);
    MarkedAndFlushed(p.pending);
    DeliverAllKnown(p.(pending := AllMarked(p.pending)), FlushedResults(p.pending));
  }

  lemma FlushAnswers(p: Pipeline, n: nat)
    requires BridgeKnown(p) && n < |p.pending| && !p.pending[n].hasResult
    ensures TextAnswered(Flush(p).sunk, p.pending[n].key)
  {
    var marked, flushed := p.(pending := AllMarked(p.pending)), FlushedResults(p.pending);
    FlushedTracked(p);
    DeliverAllKnown(marked, flushed);
    AllDelivered(marked, flushed);
    MarkedAndFlushed(p.pending);
    var k :| 0 <= k < |flushed| && flushed[k] == MissingResult(p.pending[n]);
    assert Tracked(flushed[k]);
  }

  lemma FlushKnown(p: Pipeline)
    requires BridgeKnown(p) && Contract(p)
    ensures BridgeKnown(Flush(p))
  {
    var q := Flush(p);
    FlushShape(p);
    FlushCloses(p);
    forall n | 0 <= n < |q.pending|
      ensures q.pending[n].key == Key(q.sunk[EndsAt(q.sunk)[n]].id)
      ensures MissingResult(q.pending[n]) == MissingFor(q.sunk[EndsAt(q.sunk)[n]])
      ensures Marked(q.pending, n, q.sunk, EndsAt(q.sunk)[n])
    {
      var i := EndsAt(p.sunk)[n];
      assert q.sunk[i] == p.sunk[i];
      if !p.pending[n].hasResult { FlushAnswers(p, n); }
      FlushedMarks(p, q.pending, q.sunk[|p.sunk|..], n, i);
    }
  }

  lemma FlushedMarks(p: Pipeline, pending: seq<PendingCall>, more: seq<Event>, n: nat, i: nat)
    requires n < |p.pending| && i < |p.sunk| && |pending| == |p.pending| && Marked(p.pending, n, p.sunk, i)
    requires forall m :: 0 <= m < |pending| ==> pending[m] == p.pending[m].(hasResult := true)
    requires !p.pending[n].hasResult ==> TextAnswered(p.sunk + more, p.pending[n].key)
    ensures Marked(pending, n, p.sunk + more, i)
  {
    var key := p.pending[n].key;
    SameFirst(p.pending, pending, n);
    if TextAnswered(p.sunk, key) {
      TextAnsweredStays(p.sunk, more, key);
    } else if ResultAfter(p.sunk, i, key) {
      var j :| i < j < |p.sunk| && ResultFor(p.sunk[j], key);
      assert ResultFor((p.sunk + more)[j], key);
    }
  }

  lemma PassBridges(p: Pipeline, e: Event)
    requires BridgeKnown(p) && Contract(p)
    ensures BridgeKnown(Pass(p, e))
  {
    var closed := if e.Terminal? then Flush(p) else p;
    if e.Terminal? { FlushKnown(p); }
    DeliverKnown(closed, e);
    PassKeeps(p, e);
    if Dropped(closed, e) {
      BridgeAfterDropped(closed.pending, closed.sunk, Key(e.id));
    } else {
      BridgeAfter(closed.pending, closed.sunk, e);
    }
  }

  lemma {:induction false} EveryRunBridges(prior: seq<Event>, read: TaskReader, events: seq<Event>)
    ensures BridgeKnown(EmitAll(prior, read, events))
  {
    if events == [] {
      assert forall text :: !TextAnswered([], text);
    } else {
      var front, e := events[..|events| - 1], events[|events| - 1];
      var p := EmitAll(prior, read, front);
      EveryRunBridges(prior, read, front);
      EveryRunKeepsContract(prior, read, front);
      PassBridges(p, e);
      PassKeeps(p, e);
      var (observed, projected) := ObserveTask(Pass(p, e), read, e);
      if projected != [] {
        var busy := observed.(projecting := true);
        assert projected[..0] == [] && PassAll(busy, []) == busy;
        PassBridges(busy, projected[0]);
      }
    }
  }

  /** Of the events delivered in one go, the first under each new string id goes through. */
  lemma {:induction false} FirstGoesThrough(p: Pipeline, events: seq<Event>, k: nat)
    requires forall i :: 0 <= i < |events| ==> Tracked(events[i])
    requires k < |events| && Tracked(events[k]) && events[k].id.text !in p.delivered
    requires forall i :: 0 <= i < k ==> Tracked(events[i]) && events[i].id.text != events[k].id.text
    ensures var after := DeliverAll(p, events).sunk;
      |p.sunk| <= |after| && after[..|p.sunk|] == p.sunk && events[k] in after[|p.sunk|..]
  {
    var n := |events| - 1;
    var front, before := events[..n], DeliverAll(p, events[..n]);
    DeliverAllAdds(p, front);
    DeliveredTexts(p, front);
    if k == n {
      assert events[n].id.text !in before.delivered;
      assert (before.sunk + [events[n]])[|p.sunk|..] == before.sunk[|p.sunk|..] + [events[n]];
    } else {
      FirstGoesThrough(p, front, k);
      var after := DeliverAll(p, events).sunk;
      assert after == before.sunk
             || (after == before.sunk + [events[n]] && after[|p.sunk|..] == before.sunk[|p.sunk|..] + [events[n]]);
    }
  }

  lemma {:induction false} DeliveredTexts(p: Pipeline, events: seq<Event>)
    ensures forall text :: text in DeliverAll(p, events).delivered ==>
              text in p.delivered || exists i :: 0 <= i < |events| && Tracked(events[i]) && events[i].id.text == text
  {
    if events != [] {
      var n := |events| - 1;
      DeliveredTexts(p, events[..n]);
      forall text | text in DeliverAll(p, events).delivered && text !in p.delivered
        ensures exists i :: 0 <= i < |events| && Tracked(events[i]) && events[i].id.text == text
      {
        if text in DeliverAll(p, events[..n]).delivered {
          var i :| 0 <= i < n && Tracked(events[..n][i]) && events[..n][i].id.text == text;
          assert Tracked(events[i]);
        } else {
          assert Tracked(events[n]);
        }
      }
    }
  }

  /** The first unmarked entry of a call is flushed, ahead of any other of the same call. */
  lemma {:induction false} FirstIsFlushed(pending: seq<PendingCall>, i: nat) returns (k: nat)
    requires i < |pending| && !pending[i].hasResult
    requires forall j :: 0 <= j < i && pending[j].key == pending[i].key ==> pending[j].hasResult
    ensures var flushed := FlushedResults(pending);
      && k < |flushed| && flushed[k] == MissingResult(pending[i])
      && forall j :: 0 <= j < k ==> flushed[j].ToolResult? && Key(flushed[j].id) != pending[i].key
  {
    var n := |pending| - 1;
    if i == n {
      k := |FlushedResults(pending[..n])|;
      FlushedKeys(pending[..n], pending[n].key);
    } else {
      k := FirstIsFlushed(pending[..n], i);
    }
  }

  lemma {:induction false} FlushedKeys(pending: seq<PendingCall>, key: string)
    requires forall j :: 0 <= j < |pending| && pending[j].key == key ==> pending[j].hasResult
    ensures forall k :: 0 <= k < |FlushedResults(pending)| ==>
              FlushedResults(pending)[k].ToolResult? && Key(FlushedResults(pending)[k].id) != key
  {
    if pending != [] { FlushedKeys(pending[..|pending| - 1], key); }
  }

  /** The end of a call that still waits for its result: no result came under the call's string id, and the end is
      not the call's first one or no result came behind it. */
  ghost predicate Open(log: seq<Event>, i: nat) {
    && i < |log| && Ended(log[i]) && !TextAnswered(log, Key(log[i].id))
    && ((exists j :: 0 <= j < i && Ended(log[j]) && Key(log[j].id) == Key(log[i].id))
        || !ResultAfter(log, i, Key(log[i].id)))
  }

  ghost predicate FirstOpen(log: seq<Event>, i: nat) {
    Open(log, i) && forall j: nat :: j < i && Open(log, j) ==> Key(log[j].id) != Key(log[i].id)
  }

  /** What is delivered between the log so far and the event that ends the run: for every call with an open end
      one missing result, that of the first such end. */
  ghost predicate Completes(log: seq<Event>, extras: seq<Event>) {
    && (forall k :: 0 <= k < |extras| ==> exists i: nat :: FirstOpen(log, i) && extras[k] == MissingFor(log[i]))
    && (forall i: nat :: FirstOpen(log, i) ==> MissingFor(log[i]) in extras)
    && (forall j, k :: 0 <= j < k < |extras| && Tracked(extras[j]) && Tracked(extras[k]) ==>
          extras[j].id != extras[k].id)
  }

  /** An entry is unmarked exactly when its end is open, for calls not answered under their string ids. */
  lemma UnmarkedIffOpen(p: Pipeline, n: nat)
    requires BridgeKnown(p) && n < |p.pending| && !TextAnswered(p.sunk, p.pending[n].key)
    ensures !p.pending[n].hasResult <==> Open(p.sunk, EndsAt(p.sunk)[n])
  {
    assert Marked(p.pending, n, p.sunk, EndsAt(p.sunk)[n]);
    FirstEntryIff(p, n);
  }

  lemma FirstEntryIff(p: Pipeline, n: nat)
    requires BridgeFollows(p.pending, p.sunk) && n < |p.pending|
    ensures FirstEntry(p.pending, n) <==>
      !exists j :: 0 <= j < EndsAt(p.sunk)[n] && Ended(p.sunk[j]) && Key(p.sunk[j].id) == p.pending[n].key
  {
    var key, i := p.pending[n].key, EndsAt(p.sunk)[n];
    if !FirstEntry(p.pending, n) {
      var m :| 0 <= m < n && p.pending[m].key == key;
      EntryEnd(p, m);
    }
    if j :| 0 <= j < i && Ended(p.sunk[j]) && Key(p.sunk[j].id) == key { EndEntry(p, n, j); }
  }

  lemma EntryEnd(p: Pipeline, m: nat)
    requires BridgeFollows(p.pending, p.sunk) && m < |p.pending|
    ensures EndsAt(p.sunk)[m] < |p.sunk| && Ended(p.sunk[EndsAt(p.sunk)[m]])
    ensures Key(p.sunk[EndsAt(p.sunk)[m]].id) == p.pending[m].key
  {
  }

  lemma EndEntry(p: Pipeline, n: nat, j: nat)
    requires BridgeFollows(p.pending, p.sunk) && n < |p.pending| && j < EndsAt(p.sunk)[n] && Ended(p.sunk[j])
    requires Key(p.sunk[j].id) == p.pending[n].key
    ensures !FirstEntry(p.pending, n)
  {
    var at := EndsAt(p.sunk);
    var m :| 0 <= m < |at| && at[m] == j;
    EntryEnd(p, m);
  }

  lemma OpenIsEntry(p: Pipeline, i: nat) returns (n: nat)
    requires BridgeKnown(p) && Open(p.sunk, i)
    ensures n < |p.pending| && EndsAt(p.sunk)[n] == i && p.pending[n].key == Key(p.sunk[i].id)
    ensures !p.pending[n].hasResult && MissingResult(p.pending[n]) == MissingFor(p.sunk[i])
  {
    n :| 0 <= n < |EndsAt(p.sunk)| && EndsAt(p.sunk)[n] == i;
    UnmarkedIffOpen(p, n);
  }

  lemma FirstOpenIsDelivered(p: Pipeline, i: nat)
    requires BridgeKnown(p) && FirstOpen(p.sunk, i)
    ensures |p.sunk| <= |Flush(p).sunk| && MissingFor(p.sunk[i]) in Flush(p).sunk[|p.sunk|..]
  {
    var n := OpenIsEntry(p, i);
    forall m | 0 <= m < n && p.pending[m].key == p.pending[n].key
      ensures p.pending[m].hasResult
    {
      UnmarkedIffOpen(p, m);
    }
    var k := FirstIsFlushed(p.pending, n);
    FlushedTracked(p);
    FirstGoesThrough(p.(pending := AllMarked(p.pending)), FlushedResults(p.pending), k);
  }

  lemma {:induction false} FirstOpenOf(log: seq<Event>, i: nat, key: string) returns (m: nat)
    requires Open(log, i) && Key(log[i].id) == key
    ensures m <= i && FirstOpen(log, m) && Key(log[m].id) == key
  {
    m := i;
    if j: nat :| j < i && Open(log, j) && Key(log[j].id) == key { m := FirstOpenOf(log, j, key); }
  }

  /** Over every run: the event that ends it comes last, and right before it stand the missing results: one for
      each call that ended and got no result, under the call's id, with the name its end gave and the word that
      nothing was delivered. A call answered under its string id gets none, and no call gets two. */
  lemma EndIsCompleted(prior: seq<Event>, read: TaskReader, events: seq<Event>, e: Event)
    requires e.Terminal?
    ensures var before, after := EmitAll(prior, read, events).sunk, EmitAll(prior, read, events + [e]).sunk;
      && |before| < |after|
      && var extras := after[|before|..|after| - 1];
         after == before + extras + [e] && Completes(before, extras)
  {
    var p := EmitAll(prior, read, events);
    assert (events + [e])[..|events|] == events;
    EveryRunKeepsContract(prior, read, events);
    EveryRunRemembers(prior, read, events);
    EveryRunBridges(prior, read, events);
    FlushThenEvent(p, read, e);
    FlushAdds(p);
    var extras, after := Flush(p).sunk[|p.sunk|..], Emit(p, read, e).sunk;
    assert after[|p.sunk|..|after| - 1] == extras;
    FlushedCompletes(p, extras);
  }

  ghost predicate ExtrasOwed(p: Pipeline, extras: seq<Event>) {
    forall k :: 0 <= k < |extras| ==>
      OwedBy(p.pending, extras[k]) && Tracked(extras[k]) && extras[k].id.text !in p.delivered
  }

  lemma FlushAdds(p: Pipeline)
    requires Contract(p)
    ensures var before, after := p.sunk, Flush(p).sunk;
      && |before| <= |after| && after == before + after[|before|..] && AnsweredOnce(after[|before|..])
      && ExtrasOwed(p, after[|before|..])
  {
    FlushCloses(p);
    FlushGrows(p);
    OnceFrom(Flush(p).sunk, |p.sunk|);
    FlushOwes(p);
  }

  lemma FlushOwes(p: Pipeline)
    requires BridgeSound(p.pending, p.sunk)
    ensures |p.sunk| <= |Flush(p).sunk| && ExtrasOwed(p, Flush(p).sunk[|p.sunk|..])
  {
    var flushed, after := FlushedResults(p.pending), Flush(p).sunk;
    FlushedTracked(p);
    assert forall x :: x in flushed ==> Tracked(x) && OwedBy(p.pending, x);
    DeliverAllOrder(p.(pending := AllMarked(p.pending)), flushed);
    assert forall k :: 0 <= k < |after[|p.sunk|..]| ==> after[|p.sunk|..][k] == after[|p.sunk| + k];
  }

  lemma OnceFrom(log: seq<Event>, n: nat)
    requires AnsweredOnce(log) && n <= |log|
    ensures AnsweredOnce(log[n..])
  {
  }

  lemma FlushedCompletes(p: Pipeline, extras: seq<Event>)
    requires BridgeKnown(p)
    requires |p.sunk| <= |Flush(p).sunk| && extras == Flush(p).sunk[|p.sunk|..] && AnsweredOnce(extras)
    requires ExtrasOwed(p, extras)
    ensures Completes(p.sunk, extras)
  {
    forall i: nat | FirstOpen(p.sunk, i)
      ensures MissingFor(p.sunk[i]) in extras
    {
      FirstOpenIsDelivered(p, i);
    }
    forall k | 0 <= k < |extras|
      ensures exists i: nat :: FirstOpen(p.sunk, i) && extras[k] == MissingFor(p.sunk[i])
    {
      ExtraIsFirstOpen(p, extras, k);
    }
  }

  lemma ExtraIsFirstOpen(p: Pipeline, extras: seq<Event>, k: nat)
    requires BridgeKnown(p) && AnsweredOnce(extras) && k < |extras|
    requires OwedBy(p.pending, extras[k]) && Tracked(extras[k]) && extras[k].id.text !in p.delivered
    requires forall i: nat :: FirstOpen(p.sunk, i) ==> MissingFor(p.sunk[i]) in extras
    ensures exists i: nat :: FirstOpen(p.sunk, i) && extras[k] == MissingFor(p.sunk[i])
  {
    var n :| 0 <= n < |p.pending| && !p.pending[n].hasResult && extras[k] == MissingResult(p.pending[n]);
    UnmarkedIffOpen(p, n);
    var m := FirstOpenOf(p.sunk, EndsAt(p.sunk)[n], p.pending[n].key);
    var j :| 0 <= j < |extras| && extras[j] == MissingFor(p.sunk[m]);
    assert Tracked(extras[j]) && extras[j].id == extras[k].id;
    assert j == k;
  }

  lemma FlushThenEvent(p: Pipeline, read: TaskReader, e: Event)
    requires e.Terminal? && !p.projecting
    ensures Emit(p, read, e).sunk == Flush(p).sunk + [e]
  {
    DeliverAllKeepsRest(p.(pending := AllMarked(p.pending)), FlushedResults(p.pending));
  }
}
