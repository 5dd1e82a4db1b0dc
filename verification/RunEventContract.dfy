/**
 The pipeline's contract over every sequence of emitted events: tool calls are answered exactly once,
 before the run ends, and the stored log is the delivered one.
 */
module RunEventContract {
  import opened Wrappers
  import opened RunEvents

  ghost predicate HasResult(log: seq<Event>, key: string) {
    exists i :: 0 <= i < |log| && ResultFor(log[i], key)
  }

  ghost predicate HasEnd(log: seq<Event>, key: string) {
    exists i :: 0 <= i < |log| && EndOf(log[i], key)
  }

  ghost predicate AllAnswered(log: seq<Event>) {
    forall key :: HasEnd(log, key) ==> HasResult(log, key)
  }

  /** Whenever a terminal event stands in the sink log, every call that ended before it was answered
      before it. */
  ghost predicate TerminalsClose(log: seq<Event>) {
    forall t :: 0 <= t < |log| && log[t].Terminal? ==> AllAnswered(log[..t])
  }

  /** No string id is answered twice. */
  ghost predicate AnsweredOnce(log: seq<Event>) {
    forall i, j :: 0 <= i < j < |log| && Tracked(log[i]) && Tracked(log[j]) ==> log[i].id.text != log[j].id.text
  }

  ghost predicate Waits(pending: seq<PendingCall>, key: string) {
    exists i :: 0 <= i < |pending| && pending[i].key == key
  }

  ghost predicate BridgeSound(pending: seq<PendingCall>, log: seq<Event>) {
    forall i :: 0 <= i < |pending| ==> pending[i].key != "" && (pending[i].hasResult ==> HasResult(log, pending[i].key))
  }

  ghost predicate BridgeComplete(pending: seq<PendingCall>, log: seq<Event>) {
    forall key :: HasEnd(log, key) ==> Waits(pending, key)
  }

  ghost predicate Contract(p: Pipeline) {
    && (forall key :: key in p.delivered ==> HasResult(p.sunk, key))
    && (forall i :: 0 <= i < |p.sunk| && Tracked(p.sunk[i]) ==> p.sunk[i].id.text in p.delivered)
    && AnsweredOnce(p.sunk)
    && TerminalsClose(p.sunk)
    && BridgeSound(p.pending, p.sunk)
    && BridgeComplete(p.pending, p.sunk)
  }

  // ---------------------------------------------------------------- growing logs

  lemma ResultStays(log: seq<Event>, more: seq<Event>, key: string)
    requires HasResult(log, key)
    ensures HasResult(log + more, key)
  {
    var i :| 0 <= i < |log| && ResultFor(log[i], key);
    assert ResultFor((log + more)[i], key);
  }

  lemma EndOfLonger(log: seq<Event>, e: Event, key: string)
    ensures HasEnd(log + [e], key) <==> HasEnd(log, key) || EndOf(e, key)
  {
    if HasEnd(log, key) {
      var i :| 0 <= i < |log| && EndOf(log[i], key);
      assert EndOf((log + [e])[i], key);
    }
    if EndOf(e, key) { assert EndOf((log + [e])[|log|], key); }
  }

  lemma TerminalsCloseLonger(log: seq<Event>, e: Event)
    requires TerminalsClose(log) && (e.Terminal? ==> AllAnswered(log))
    ensures TerminalsClose(log + [e])
  {
    forall t | 0 <= t < |log + [e]| && (log + [e])[t].Terminal?
      ensures AllAnswered((log + [e])[..t])
    {
      assert (log + [e])[..t] == log[..t];
      if t == |log| { assert log[..t] == log; }
    }
  }

  // ---------------------------------------------------------------- delivery

  /** Everything but the bridge's view of tool ends, which lags one event behind. */
  ghost predicate DeliveryContract(p: Pipeline) {
    && (forall key :: key in p.delivered ==> HasResult(p.sunk, key))
    && (forall i :: 0 <= i < |p.sunk| && Tracked(p.sunk[i]) ==> p.sunk[i].id.text in p.delivered)
    && AnsweredOnce(p.sunk)
    && TerminalsClose(p.sunk)
    && BridgeSound(p.pending, p.sunk)
  }

  lemma DeliverKeeps(p: Pipeline, e: Event)
    requires DeliveryContract(p) && (e.Terminal? ==> AllAnswered(p.sunk))
    ensures DeliveryContract(Deliver(p, e))
    ensures e.ToolResult? && Truthy(e.id) ==> HasResult(Deliver(p, e).sunk, Key(e.id))
    ensures forall key :: HasResult(p.sunk, key) ==> HasResult(Deliver(p, e).sunk, key)
    ensures forall key :: HasEnd(Deliver(p, e).sunk, key) <==> HasEnd(p.sunk, key) || EndOf(e, key)
  {
    var after := Deliver(p, e);
    if Dropped(p, e) {
      return;
    }
    forall key
      ensures HasResult(p.sunk, key) ==> HasResult(after.sunk, key)
      ensures HasEnd(after.sunk, key) <==> HasEnd(p.sunk, key) || EndOf(e, key)
    {
      if HasResult(p.sunk, key) { ResultStays(p.sunk, [e], key); }
      EndOfLonger(p.sunk, e, key);
    }
    if e.ToolResult? && Truthy(e.id) { assert ResultFor(after.sunk[|p.sunk|], Key(e.id)); }
    TerminalsCloseLonger(p.sunk, e);
  }

  ghost predicate AllResults(events: seq<Event>) {
    forall i :: 0 <= i < |events| ==> events[i].ToolResult? && Truthy(events[i].id)
  }

  lemma {:induction false} DeliverAllKeeps(p: Pipeline, events: seq<Event>)
    requires DeliveryContract(p) && AllResults(events)
    ensures DeliveryContract(DeliverAll(p, events)) && DeliverAll(p, events).pending == p.pending
  {
    if events != [] {
      DeliverAllKeeps(p, events[..|events| - 1]);
      DeliverKeeps(DeliverAll(p, events[..|events| - 1]), events[|events| - 1]);
    }
  }

  lemma {:induction false} DeliverAllAnswers(p: Pipeline, events: seq<Event>, key: string)
    requires DeliveryContract(p) && AllResults(events)
    requires HasResult(p.sunk, key) || exists i :: 0 <= i < |events| && Key(events[i].id) == key
    ensures HasResult(DeliverAll(p, events).sunk, key)
  {
    if events != [] {
      var front, last := events[..|events| - 1], events[|events| - 1];
      var before := DeliverAll(p, front);
      DeliverAllKeeps(p, front);
      DeliverKeeps(before, last);
      if Key(last.id) != key {
        if !HasResult(p.sunk, key) {
          var i :| 0 <= i < |events| && Key(events[i].id) == key;
          assert front[i] == events[i];
        }
        DeliverAllAnswers(p, front, key);
        assert HasResult(before.sunk, key);
      }
    }
  }

  lemma {:induction false} DeliverAllEnds(p: Pipeline, events: seq<Event>, key: string)
    requires AllResults(events)
    ensures HasEnd(DeliverAll(p, events).sunk, key) <==> HasEnd(p.sunk, key)
  {
    if events != [] {
      DeliverAllEnds(p, events[..|events| - 1], key);
      EndOfLonger(DeliverAll(p, events[..|events| - 1]).sunk, events[|events| - 1], key);
    }
  }

  // ---------------------------------------------------------------- the bridge

  lemma {:induction false} MarkFirstKeeps(pending: seq<PendingCall>, key: string)
    ensures |MarkFirst(pending, key)| == |pending|
    ensures forall i :: 0 <= i < |pending| ==>
              && MarkFirst(pending, key)[i].key == pending[i].key
              && (MarkFirst(pending, key)[i].hasResult ==> pending[i].hasResult || pending[i].key == key)
  {
    if pending != [] && pending[0].key != key {
      MarkFirstKeeps(pending[1..], key);
    }
  }

  lemma ObserveKeeps(pending: seq<PendingCall>, log: seq<Event>, e: Event)
    requires BridgeSound(pending, log)
    requires e.ToolResult? && Truthy(e.id) ==> HasResult(log, Key(e.id))
    ensures BridgeSound(BridgeObserve(pending, e), log)
    ensures forall key :: Waits(pending, key) || EndOf(e, key) ==> Waits(BridgeObserve(pending, e), key)
  {
    var after := BridgeObserve(pending, e);
    if e.ToolResult? && Truthy(e.id) { MarkFirstKeeps(pending, Key(e.id)); }
    forall key | Waits(pending, key) || EndOf(e, key)
      ensures Waits(after, key)
    {
      if Waits(pending, key) {
        var i :| 0 <= i < |pending| && pending[i].key == key;
        assert after[i].key == key;
      } else {
        assert after[|pending|].key == key;
      }
    }
  }

  lemma {:induction false} MarkedAndFlushed(pending: seq<PendingCall>)
    ensures |AllMarked(pending)| == |pending|
    ensures forall i :: 0 <= i < |pending| ==> AllMarked(pending)[i] == pending[i].(hasResult := true)
    ensures forall i :: 0 <= i < |pending| && !pending[i].hasResult ==>
        MissingResult(pending[i]) in FlushedResults(pending)
    ensures forall e :: e in FlushedResults(pending) ==> OwedBy(pending, e)
  {
    if pending != [] {
      var front := pending[..|pending| - 1];
      MarkedAndFlushed(front);
      forall e | e in FlushedResults(pending)
        ensures OwedBy(pending, e)
      {
        if e in FlushedResults(front) {
          var j :| 0 <= j < |front| && !front[j].hasResult && e == MissingResult(front[j]);
          assert !pending[j].hasResult && e == MissingResult(pending[j]);
        } else {
          assert e == MissingResult(pending[|pending| - 1]);
        }
      }
    }
  }

  ghost predicate OwedBy(pending: seq<PendingCall>, e: Event) {
    exists j :: 0 <= j < |pending| && !pending[j].hasResult && e == MissingResult(pending[j])
  }

  /** After the flush every call the bridge knows, hence every call that ended, is answered. */
  lemma FlushCloses(p: Pipeline)
    requires Contract(p)
    ensures Contract(Flush(p)) && AllAnswered(Flush(p).sunk)
    ensures forall key :: HasEnd(Flush(p).sunk, key) <==> HasEnd(p.sunk, key)
  {
    var extras := FlushedResults(p.pending);
    MarkedAndFlushed(p.pending);
    forall i | 0 <= i < |extras|
      ensures extras[i].ToolResult? && Truthy(extras[i].id)
    {
      assert extras[i] in extras && OwedBy(p.pending, extras[i]);
    }
    var bare := p.(pending := []);
    DeliverAllKeeps(bare, extras);
    DeliverAllIgnoresPending(bare, extras, AllMarked(p.pending));
    var after := Flush(p);
    forall i | 0 <= i < |p.pending|
      ensures HasResult(after.sunk, p.pending[i].key)
    {
      if !p.pending[i].hasResult {
        var k :| 0 <= k < |extras| && extras[k] == MissingResult(p.pending[i]);
        assert Key(extras[k].id) == p.pending[i].key;
      }
      DeliverAllAnswers(bare, extras, p.pending[i].key);
    }
    forall key
      ensures HasEnd(after.sunk, key) <==> HasEnd(p.sunk, key)
      ensures HasEnd(p.sunk, key) ==> Waits(after.pending, key) && HasResult(after.sunk, key)
    {
      DeliverAllEnds(bare, extras, key);
      if HasEnd(p.sunk, key) {
        var i :| 0 <= i < |p.pending| && p.pending[i].key == key;
        assert after.pending[i].key == key;
      }
    }
  }

  lemma {:induction false} DeliverAllIgnoresPending(p: Pipeline, events: seq<Event>, pending: seq<PendingCall>)
    ensures DeliverAll(p.(pending := pending), events) == DeliverAll(p, events).(pending := pending)
  {
    if events != [] {
      DeliverAllIgnoresPending(p, events[..|events| - 1], pending);
    }
  }

  // ---------------------------------------------------------------- the pipeline

  lemma PassKeeps(p: Pipeline, e: Event)
    requires Contract(p)
    ensures Contract(Pass(p, e))
  {
    var closed := if e.Terminal? then Flush(p) else p;
    if e.Terminal? { FlushCloses(p); }
    DeliverKeeps(closed, e);
    var delivered := Deliver(closed, e);
    ObserveKeeps(delivered.pending, delivered.sunk, e);
  }

  lemma {:induction false} PassAllKeeps(p: Pipeline, events: seq<Event>)
    requires Contract(p)
    ensures Contract(PassAll(p, events))
  {
    if events != [] {
      PassAllKeeps(p, events[..|events| - 1]);
      PassKeeps(PassAll(p, events[..|events| - 1]), events[|events| - 1]);
    }
  }

  lemma EmitKeeps(p: Pipeline, read: TaskReader, e: Event)
    requires Contract(p)
    ensures Contract(Emit(p, read, e))
  {
    PassKeeps(p, e);
    var passed := Pass(p, e);
    var (observed, projected) := ObserveTask(passed, read, e);
    PassAllKeeps(observed.(projecting := true), projected);
  }

  lemma {:induction false} EveryRunKeepsContract(prior: seq<Event>, read: TaskReader, events: seq<Event>)
    ensures Contract(EmitAll(prior, read, events))
  {
    if events != [] {
      EveryRunKeepsContract(prior, read, events[..|events| - 1]);
      EmitKeeps(EmitAll(prior, read, events[..|events| - 1]), read, events[|events| - 1]);
    }
  }

  // ---------------------------------------------------------------- exactly once

  function ResultCount(log: seq<Event>, key: string): nat {
    if log == [] then 0
    else ResultCount(log[..|log| - 1], key) + (if ResultFor(log[|log| - 1], key) then 1 else 0)
  }

  lemma {:induction false} CountPositive(log: seq<Event>, key: string)
    ensures ResultCount(log, key) >= 1 <==> HasResult(log, key)
  {
    if log != [] {
      var front := log[..|log| - 1];
      CountPositive(front, key);
      assert log == front + [log[|log| - 1]];
      if HasResult(front, key) { ResultStays(front, [log[|log| - 1]], key); }
      if HasResult(log, key) && !ResultFor(log[|log| - 1], key) {
        var i :| 0 <= i < |log| && ResultFor(log[i], key);
        assert ResultFor(front[i], key);
      }
    }
  }

  /** Results under ids that are not strings, which the pipeline does not track. */
  function RawCount(log: seq<Event>, key: string): nat {
    if log == [] then 0
    else RawCount(log[..|log| - 1], key) + (if ResultFor(log[|log| - 1], key) && log[|log| - 1].id.Raw? then 1 else 0)
  }

  predicate HasTextResult(log: seq<Event>, key: string) {
    exists i :: 0 <= i < |log| && ResultFor(log[i], key) && log[i].id.Text?
  }

  lemma {:induction false} CountSplits(log: seq<Event>, key: string)
    requires AnsweredOnce(log)
    ensures ResultCount(log, key) == RawCount(log, key) + (if HasTextResult(log, key) then 1 else 0)
  {
    if log != [] {
      var front, last := log[..|log| - 1], log[|log| - 1];
      CountSplits(front, key);
      if HasTextResult(front, key) {
        var i :| 0 <= i < |front| && ResultFor(front[i], key) && front[i].id.Text?;
        assert ResultFor(log[i], key) && log[i].id.Text?;
        assert Tracked(log[i]);
      }
      if HasTextResult(log, key) && !(ResultFor(last, key) && last.id.Text?) {
        var i :| 0 <= i < |log| && ResultFor(log[i], key) && log[i].id.Text?;
        assert ResultFor(front[i], key) && front[i].id.Text?;
      }
    }
  }

  /** At a terminal event every tool call that ended before it has a result before it. The number of
      results is exactly one unless results arrived under untracked ids: each of those counts on its
      own, and all those under the string id count once. */
  lemma AnsweredAtTerminal(prior: seq<Event>, read: TaskReader, events: seq<Event>, t: nat, key: string)
    requires t < |EmitAll(prior, read, events).sunk| && EmitAll(prior, read, events).sunk[t].Terminal?
    requires HasEnd(EmitAll(prior, read, events).sunk[..t], key)
    ensures var log := EmitAll(prior, read, events).sunk[..t];
            && ResultCount(log, key) >= 1
            && ResultCount(log, key) == RawCount(log, key) + (if HasTextResult(log, key) then 1 else 0)
  {
    EveryRunKeepsContract(prior, read, events);
    var log := EmitAll(prior, read, events).sunk[..t];
    CountPositive(log, key);
    CountSplits(log, key);
  }

  /** ... so a call whose results all come under string ids has exactly one. */
  lemma ExactlyOneResult(prior: seq<Event>, read: TaskReader, events: seq<Event>, t: nat, key: string)
    requires t < |EmitAll(prior, read, events).sunk| && EmitAll(prior, read, events).sunk[t].Terminal?
    requires HasEnd(EmitAll(prior, read, events).sunk[..t], key)
    requires RawCount(EmitAll(prior, read, events).sunk[..t], key) == 0
    ensures ResultCount(EmitAll(prior, read, events).sunk[..t], key) == 1
  {
    AnsweredAtTerminal(prior, read, events, t, key);
  }

  /** Over the whole log, a call is never answered twice under string ids. */
  lemma AnsweredAtMostOnce(prior: seq<Event>, read: TaskReader, events: seq<Event>, key: string)
    ensures var log := EmitAll(prior, read, events).sunk;
            ResultCount(log, key) == RawCount(log, key) + (if HasTextResult(log, key) then 1 else 0)
  {
    EveryRunKeepsContract(prior, read, events);
    CountSplits(EmitAll(prior, read, events).sunk, key);
  }

  // ---------------------------------------------------------------- the stored log is the sink log

  lemma {:induction false} DeliverAllWrites(p: Pipeline, prior: seq<Event>, events: seq<Event>)
    requires p.persisted == WriteAll(prior, p.sunk)
    ensures DeliverAll(p, events).persisted == WriteAll(prior, DeliverAll(p, events).sunk)
  {
    if events != [] {
      var before := DeliverAll(p, events[..|events| - 1]);
      DeliverAllWrites(p, prior, events[..|events| - 1]);
      DeliverWrites(before, prior, events[|events| - 1]);
    }
  }

  lemma DeliverWrites(p: Pipeline, prior: seq<Event>, e: Event)
    requires p.persisted == WriteAll(prior, p.sunk)
    ensures Deliver(p, e).persisted == WriteAll(prior, Deliver(p, e).sunk)
  {
    assert (p.sunk + [e])[..|p.sunk|] == p.sunk;
  }

  lemma PassWrites(p: Pipeline, prior: seq<Event>, e: Event)
    requires p.persisted == WriteAll(prior, p.sunk)
    ensures Pass(p, e).persisted == WriteAll(prior, Pass(p, e).sunk)
  {
    DeliverAllWrites(p.(pending := AllMarked(p.pending)), prior, FlushedResults(p.pending));
    DeliverWrites(if e.Terminal? then Flush(p) else p, prior, e);
  }

  lemma EmitWrites(p: Pipeline, prior: seq<Event>, read: TaskReader, e: Event)
    requires p.persisted == WriteAll(prior, p.sunk)
    ensures Emit(p, read, e).persisted == WriteAll(prior, Emit(p, read, e).sunk)
  {
    PassWrites(p, prior, e);
    var (observed, projected) := ObserveTask(Pass(p, e), read, e);
    if projected != [] && !observed.projecting {
      assert projected == [projected[0]];
      assert projected[..0] == [];
      assert PassAll(observed.(projecting := true), []) == observed.(projecting := true);
      PassWrites(observed.(projecting := true), prior, projected[0]);
    }
  }

  /** The stored log is the delivered log behind whatever was stored before, with repeats of a
      protocol event left out. */
  lemma {:induction false} StoredIsDelivered(prior: seq<Event>, read: TaskReader, events: seq<Event>)
    ensures EmitAll(prior, read, events).persisted == WriteAll(prior, EmitAll(prior, read, events).sunk)
  {
    if events != [] {
      StoredIsDelivered(prior, read, events[..|events| - 1]);
      EmitWrites(EmitAll(prior, read, events[..|events| - 1]), prior, read, events[|events| - 1]);
    }
  }

  ghost predicate NothingRepeats(prior: seq<Event>, events: seq<Event>) {
    forall j :: 0 <= j < |events| ==> !Skipped(prior + events[..j], events[j])
  }

  lemma {:induction false} WriteAllExact(prior: seq<Event>, events: seq<Event>)
    ensures |WriteAll(prior, events)| <= |prior| + |events|
    ensures WriteAll(prior, events) == prior + events <==> NothingRepeats(prior, events)
    ensures |WriteAll(prior, events)| == |prior| + |events| ==> WriteAll(prior, events) == prior + events
  {
    if events == [] {
      assert prior + events == prior;
    } else {
      var front, last := events[..|events| - 1], events[|events| - 1];
      WriteAllExact(prior, front);
      NothingRepeatsLast(prior, events);
      assert prior + events == prior + front + [last];
    }
  }

  /** The ids of a log's protocol events, in order; one without an id is never skipped. */
  function ProtocolIds(log: seq<Event>): seq<string> {
    if log == [] then []
    else
      var last, earlier := log[|log| - 1], ProtocolIds(log[..|log| - 1]);
      if last.Protocol? && last.eventId != "" then earlier + [last.eventId] else earlier
  }

  lemma {:induction false} IdsKnown(log: seq<Event>, id: string)
    requires id != ""
    ensures HasProtocolId(log, id) <==> id in ProtocolIds(log)
  {
    if log != [] {
      var front := log[..|log| - 1];
      IdsKnown(front, id);
      if HasProtocolId(front, id) {
        var i :| 0 <= i < |front| && front[i].Protocol? && front[i].eventId == id;
        assert log[i] == front[i];
      }
      if HasProtocolId(log, id) {
        var i :| 0 <= i < |log| && log[i].Protocol? && log[i].eventId == id;
        if i < |front| { assert front[i] == log[i]; }
      }
    }
  }

  lemma {:induction false} IdsAppend(a: seq<Event>, b: seq<Event>)
    ensures ProtocolIds(a + b) == ProtocolIds(a) + ProtocolIds(b)
    decreases |b|
  {
    if b == [] {
      assert a + b == a;
    } else {
      assert (a + b)[..|a + b| - 1] == a + b[..|b| - 1];
      IdsAppend(a, b[..|b| - 1]);
    }
  }

  /** None of the ids was used before. */
  predicate FreshIds(used: seq<string>, ids: seq<string>) {
    ids == [] ||
    (ids[|ids| - 1] !in used && ids[|ids| - 1] !in ids[..|ids| - 1] && FreshIds(used, ids[..|ids| - 1]))
  }

  lemma {:induction false} NothingRepeatsByIds(prior: seq<Event>, events: seq<Event>)
    ensures NothingRepeats(prior, events) <==> FreshIds(ProtocolIds(prior), ProtocolIds(events))
    decreases |events|
  {
    if events != [] {
      var front, last := events[..|events| - 1], events[|events| - 1];
      NothingRepeatsByIds(prior, front);
      NothingRepeatsLast(prior, events);
      IdsAppend(prior, front);
      if last.Protocol? && last.eventId != "" {
        IdsKnown(prior + front, last.eventId);
        assert ProtocolIds(events)[..|ProtocolIds(front)|] == ProtocolIds(front);
      }
    }
  }

  lemma NothingRepeatsLast(prior: seq<Event>, events: seq<Event>)
    requires events != []
    ensures var front := events[..|events| - 1];
      NothingRepeats(prior, events) <==> NothingRepeats(prior, front) && !Skipped(prior + front, events[|events| - 1])
  {
    var front := events[..|events| - 1];
    assert forall j :: 0 <= j < |front| ==> front[..j] == events[..j] && front[j] == events[j];
    if NothingRepeats(prior, events) { assert !Skipped(prior + events[..|front|], events[|front|]); }
  }

  // What the pipeline drops is a result, and what it adds are results and plans: no protocol event.

  lemma {:induction false} DeliverAllIds(p: Pipeline, events: seq<Event>)
    requires forall i :: 0 <= i < |events| ==> events[i].ToolResult?
    ensures ProtocolIds(DeliverAll(p, events).sunk) == ProtocolIds(p.sunk)
  {
    if events != [] {
      DeliverAllIds(p, events[..|events| - 1]);
      DeliverIds(DeliverAll(p, events[..|events| - 1]), events[|events| - 1]);
    }
  }

  lemma DeliverIds(p: Pipeline, e: Event)
    ensures ProtocolIds(Deliver(p, e).sunk)
         == ProtocolIds(p.sunk) + if e.Protocol? && e.eventId != "" then [e.eventId] else []
  {
    IdsAppend(p.sunk, [e]);
    assert [e][..0] == [];
    assert ProtocolIds([e]) == if e.Protocol? && e.eventId != "" then [e.eventId] else [];
  }

  lemma {:induction false} FlushedAreResults(pending: seq<PendingCall>)
    ensures forall i :: 0 <= i < |FlushedResults(pending)| ==> FlushedResults(pending)[i].ToolResult?
  {
    if pending != [] { FlushedAreResults(pending[..|pending| - 1]); }
  }

  lemma PassIds(p: Pipeline, e: Event)
    ensures ProtocolIds(Pass(p, e).sunk)
         == ProtocolIds(p.sunk) + if e.Protocol? && e.eventId != "" then [e.eventId] else []
  {
    FlushedAreResults(p.pending);
    DeliverAllIds(p.(pending := AllMarked(p.pending)), FlushedResults(p.pending));
    DeliverIds(if e.Terminal? then Flush(p) else p, e);
  }

  lemma EmitIds(p: Pipeline, read: TaskReader, e: Event)
    ensures ProtocolIds(Emit(p, read, e).sunk)
         == ProtocolIds(p.sunk) + if e.Protocol? && e.eventId != "" then [e.eventId] else []
  {
    PassIds(p, e);
    var (observed, projected) := ObserveTask(Pass(p, e), read, e);
    if projected != [] {
      assert projected == [projected[0]] && projected[..0] == [];
      assert PassAll(observed.(projecting := true), []) == observed.(projecting := true);
      PassIds(observed.(projecting := true), projected[0]);
    }
  }

  lemma {:induction false} EmitAllIds(prior: seq<Event>, read: TaskReader, events: seq<Event>)
    ensures ProtocolIds(EmitAll(prior, read, events).sunk) == ProtocolIds(events)
  {
    if events != [] {
      EmitAllIds(prior, read, events[..|events| - 1]);
      EmitIds(EmitAll(prior, read, events[..|events| - 1]), read, events[|events| - 1]);
    }
  }

  /** ... so the two logs agree exactly when no emitted protocol event's id was stored before the run's
      events or emitted earlier among them. */
  lemma StoredEqualsDeliveredIff(prior: seq<Event>, read: TaskReader, events: seq<Event>)
    ensures var p := EmitAll(prior, read, events);
            p.persisted == prior + p.sunk <==> FreshIds(ProtocolIds(prior), ProtocolIds(events))
  {
    var sunk := EmitAll(prior, read, events).sunk;
    StoredIsDelivered(prior, read, events);
    WriteAllExact(prior, sunk);
    NothingRepeatsByIds(prior, sunk);
    EmitAllIds(prior, read, events);
  }

  /** The same protocol event twice is delivered twice and stored once. */
  lemma RepeatedProtocolEventWitness(read: TaskReader)
    ensures var e := Protocol("id", "body"); var p := EmitAll([], read, [e, e]);
      p.sunk == [e, e] && p.persisted == [e]
  {
    var e := Protocol("id", "body");
    var one, two := EmitAll([], read, [e]), EmitAll([], read, [e, e]);
    assert [e][..0] == [] && [e, e][..1] == [e];
    assert EmitAll([], read, []) == Start([]);
    assert one.sunk == [e] && one.persisted == [e];
    assert HasProtocolId(one.persisted, "id");
  }

  // ---------------------------------------------------------------- a sink that emits

  /** One event through a pipeline whose sink emits further events while the event is delivered to it: they
      come before the bridge hears of the event itself. */
  function PassNested(p: Pipeline, e: Event, emitted: seq<Event>): Pipeline {
    var closed := if e.Terminal? then Flush(p) else p;
    var nested := PassAll(Deliver(closed, e), emitted);
    nested.(pending := BridgeObserve(nested.pending, e))
  }

  /** Such a sink can end the run inside the delivery of a call's end; the terminal event then finds the
      call unanswered. */
  lemma EmittingSinkWitness()
    ensures var end, stop := ToolEnd(Text("call"), None), Terminal(false);
      var p := PassNested(Start([]), end, [stop]);
      p.sunk == [end, stop] && !TerminalsClose(p.sunk)
  {
    var end, stop := ToolEnd(Text("call"), None), Terminal(false);
    var p := PassNested(Start([]), end, [stop]);
    assert [stop][..0] == [];
    assert PassAll(Deliver(Start([]), end), [stop]) == Pass(Deliver(Start([]), end), stop);
    assert p.sunk == [end, stop] && p.sunk[..1] == [end];
    assert EndOf(p.sunk[..1][0], "call") && !ResultFor(end, "call");
    assert HasEnd(p.sunk[..1], "call") && !HasResult(p.sunk[..1], "call");
  }

  // ---------------------------------------------------------------- order of delivery

  lemma {:induction false} DeliverAllOrder(p: Pipeline, events: seq<Event>)
    requires forall e :: e in events ==> Tracked(e)
    ensures var after := DeliverAll(p, events);
            && |p.sunk| <= |after.sunk| && after.sunk[..|p.sunk|] == p.sunk
            && after.projecting == p.projecting && p.delivered <= after.delivered
            && forall i :: |p.sunk| <= i < |after.sunk| ==>
                 after.sunk[i] in events && Tracked(after.sunk[i]) && after.sunk[i].id.text !in p.delivered
  {
    if events != [] {
      DeliverAllOrder(p, events[..|events| - 1]);
      assert forall e :: e in events[..|events| - 1] ==> e in events;
    }
  }

  /** Before a terminal event the sink gets the missing results of calls that ended without one,
      then the event. */
  lemma TerminalAdds(p: Pipeline, read: TaskReader, e: Event)
    requires Contract(p) && !p.projecting && e.Terminal?
    ensures var after := Emit(p, read, e);
            && !after.projecting
            && |p.sunk| < |after.sunk| && after.sunk[..|p.sunk|] == p.sunk
            && after.sunk[|after.sunk| - 1] == e
            && forall i :: |p.sunk| <= i < |after.sunk| - 1 ==>
                 && OwedBy(p.pending, after.sunk[i])
                 && after.sunk[i].id.text !in p.delivered
  {
    var extras := FlushedResults(p.pending);
    MarkedAndFlushed(p.pending);
    forall x | x in extras
      ensures Tracked(x) && OwedBy(p.pending, x)
    {
      assert OwedBy(p.pending, x);
    }
    DeliverAllOrder(p.(pending := AllMarked(p.pending)), extras);
    assert Pass(p, e).sunk == Flush(p).sunk + [e];
    assert Emit(p, read, e).sunk == Pass(p, e).sunk;
  }

  /** Any other event adds itself, unless it repeats a result, and at most one plan snapshot. */
  lemma OrdinaryAdds(p: Pipeline, read: TaskReader, e: Event)
    requires !p.projecting && !e.Terminal?
    ensures var after := Emit(p, read, e);
            var own := if Dropped(p, e) then [] else [e];
            && !after.projecting
            && (after.sunk == p.sunk + own
                || (e.ToolResult? && exists tasks :: after.sunk == p.sunk + own + [Plan(tasks)]))
  {
    var passed := Pass(p, e);
    var own := if Dropped(p, e) then [] else [e];
    assert passed.sunk == p.sunk + own;
    var (observed, projected) := ObserveTask(passed, read, e);
    if projected != [] {
      PlanPasses(observed.(projecting := true), projected);
      assert Emit(p, read, e).sunk == p.sunk + own + [Plan(projected[0].tasks)];
    }
  }

  lemma PlanPasses(p: Pipeline, projected: seq<Event>)
    requires |projected| == 1 && projected[0].Plan?
    ensures PassAll(p, projected).sunk == p.sunk + projected
  {
    assert projected[..0] == [] && PassAll(p, []) == p;
  }
}
