/**
 What a session sees: isolation from every other session over whole runs, what a fork shows, and the
 one way a fork can fail to be a snapshot.
 */
module SessionHistory {
  import opened Wrappers
  import opened SessionBranching
  import opened SessionIsolation

  function History(store: Store, session: Id, excludeRun: Option<Id>, limit: nat): seq<Message>
    requires Resolve(store, session).Success?
  {
    ListVisible(store, Resolve(store, session).value, excludeRun, limit)
  }

  // ---------------------------------------------------------------- collecting

  lemma {:induction false} CollectCongruent(before: Store, after: Store, segments: seq<Segment>, excludeRun: Option<Id>)
    requires forall i :: 0 <= i < |segments| ==>
               Shown(after, segments[i], excludeRun) == Shown(before, segments[i], excludeRun)
    ensures Collect(after, segments, excludeRun) == Collect(before, segments, excludeRun)
  {
    if segments != [] {
      CollectCongruent(before, after, segments[..|segments| - 1], excludeRun);
    }
  }

  /** A message appended beyond a segment's clamp is not shown through it. */
  lemma ShownAfterAppend(before: Store, after: Store, segment: Segment, m: Message, excludeRun: Option<Id>)
    requires MessagesOf(after, segment.session) == MessagesOf(before, segment.session) + [m]
    ensures Shown(after, segment, excludeRun) == Shown(before, segment, excludeRun) +
              (if (segment.maxPosition.Some? && m.position > segment.maxPosition.value) || excludeRun == Some(m.run)
               then [] else [m])
  {
    var front := MessagesOf(before, segment.session);
    assert MessagesOf(after, segment.session)[..|front|] == front;
  }

  /** The one effect a step has on stored messages. */
  lemma StepMessages(store: Store, step: Step, session: Id)
    requires Good(store) && Allowed(store, step)
    ensures MessagesOf(Apply(store, step), session) == MessagesOf(store, session) +
              (if step.Append? && step.session == session
               then [Message(step.run, step.role, step.text, |MessagesOf(store, session)| + 1)] else [])
  {
    if step.Append? { AppendGood(store, step.session, step.run, step.role, step.text); }
  }

  // ---------------------------------------------------------------- the path is settled at creation

  lemma {:induction false} PathSettled(before: Store, after: Store, session: Id)
    requires Forest(before) && Forest(after) && session in before.sessions
    requires forall s :: s in before.sessions ==> s in after.sessions
    requires forall s :: s in before.sessions ==> (s in after.branches <==> s in before.branches)
    requires forall s :: s in before.branches ==> s in after.branches && after.branches[s] == before.branches[s]
    ensures Path(after, session) == Path(before, session)
    decreases before.sessions[session]
  {
    assert BranchWellPlaced(before, session) && BranchWellPlaced(after, session);
    if session in before.branches {
      PathSettled(before, after, before.branches[session].parent);
    }
  }

  lemma StepSettlesPaths(store: Store, step: Step, session: Id)
    requires Good(store) && Allowed(store, step) && session in store.sessions
    ensures Good(Apply(store, step)) && session in Apply(store, step).sessions
    ensures Path(Apply(store, step), session) == Path(store, session)
  {
    StepGood(store, step);
    var after := Apply(store, step);
    if step.Fork? { assert BranchWellPlaced(store, step.child); }
    PathSettled(store, after, session);
  }

  // ---------------------------------------------------------------- isolation

  lemma SameHistory(before: Store, after: Store, session: Id, excludeRun: Option<Id>, limit: nat)
    requires Forest(before) && Forest(after) && session in before.sessions && session in after.sessions
    requires Path(after, session) == Path(before, session)
    requires Collect(after, Path(before, session), excludeRun) == Collect(before, Path(before, session), excludeRun)
    ensures Resolve(before, session).Success? && Resolve(after, session).Success?
    ensures History(after, session, excludeRun, limit) == History(before, session, excludeRun, limit)
  {
    ResolvesToPath(before, session, {});
    ResolvesToPath(after, session, {});
    SameListing(before, after, Resolve(before, session).value, Resolve(after, session).value, excludeRun, limit);
  }

  lemma SameListing(before: Store, after: Store, a: Lineage, b: Lineage, excludeRun: Option<Id>, limit: nat)
    requires a.segments == b.segments
    requires Collect(after, a.segments, excludeRun) == Collect(before, a.segments, excludeRun)
    ensures ListVisible(after, b, excludeRun, limit) == ListVisible(before, a, excludeRun, limit)
  {
  }

  /** One step leaves the history of every session it does not append to as it was. */
  lemma StepIsolates(store: Store, step: Step, session: Id, excludeRun: Option<Id>, limit: nat)
    requires Good(store) && Allowed(store, step) && session in store.sessions
    requires step.Append? ==> step.session != session
    ensures var after := Apply(store, step);
            && Good(after) && session in after.sessions
            && Resolve(store, session).Success? && Resolve(after, session).Success?
            && History(after, session, excludeRun, limit) == History(store, session, excludeRun, limit)
  {
    StepSettlesPaths(store, step, session);
    CollectIsolated(store, step, session, excludeRun);
    SameHistory(store, Apply(store, step), session, excludeRun, limit);
  }

  /** An append behind the clamp of a segment is not shown. */
  lemma SegmentIsolated(store: Store, step: Step, segment: Segment, excludeRun: Option<Id>)
    requires Good(store) && Allowed(store, step)
    requires step.Append? && step.session == segment.session ==>
               segment.maxPosition.Some? && segment.maxPosition.value <= |MessagesOf(store, segment.session)|
    ensures Shown(Apply(store, step), segment, excludeRun) == Shown(store, segment, excludeRun)
  {
    StepMessages(store, step, segment.session);
    if step.Append? && step.session == segment.session {
      ShownAfterAppend(store, Apply(store, step), segment,
                       Message(step.run, step.role, step.text, |MessagesOf(store, step.session)| + 1), excludeRun);
    }
  }

  lemma CollectIsolated(store: Store, step: Step, session: Id, excludeRun: Option<Id>)
    requires Good(store) && Allowed(store, step) && session in store.sessions
    requires step.Append? ==> step.session != session
    ensures var path := Path(store, session);
            Collect(Apply(store, step), path, excludeRun) == Collect(store, path, excludeRun)
  {
    var after := Apply(store, step);
    var path := Path(store, session);
    PathShape(store, session);
    forall i | 0 <= i < |path|
      ensures Shown(after, path[i], excludeRun) == Shown(store, path[i], excludeRun)
    {
      SegmentIsolated(store, step, path[i], excludeRun);
    }
    CollectCongruent(store, after, path, excludeRun);
  }

  /** Writing to the session itself adds exactly that message at the end, unless its run is left out. */
  lemma AppendExtends(store: Store, session: Id, run: Id, role: Role, text: string, excludeRun: Option<Id>)
    requires Good(store) && run in store.runs && store.runs[run].session == session
    ensures var after := AppendMessage(store, session, run, role, text);
            && Resolve(store, session).Success? && Resolve(after, session).Success?
            && Collect(after, Resolve(after, session).value.segments, excludeRun) ==
                 Collect(store, Resolve(store, session).value.segments, excludeRun)
                   + if excludeRun == Some(run) then []
                     else [Message(run, role, text, |MessagesOf(store, session)| + 1)]
  {
    var step := Append(session, run, role, text);
    var after, path := Apply(store, step), Path(store, session);
    CollectExtends(store, step, excludeRun);
    assert Collect(after, path, excludeRun) == Collect(store, path, excludeRun)
        + if excludeRun == Some(run) then [] else [Message(run, role, text, |MessagesOf(store, session)| + 1)];
    StepSettlesPaths(store, step, session);
    ResolvedSegments(store, session);
    ResolvedSegments(after, session);
    assert Resolve(after, session).value.segments == path == Resolve(store, session).value.segments;
  }

  lemma CollectExtends(store: Store, step: Step, excludeRun: Option<Id>)
    requires Good(store) && Allowed(store, step) && step.Append?
    ensures step.session in store.sessions
    ensures Collect(Apply(store, step), Path(store, step.session), excludeRun) ==
              Collect(store, Path(store, step.session), excludeRun)
              + if excludeRun == Some(step.run) then []
                else [Message(step.run, step.role, step.text, |MessagesOf(store, step.session)| + 1)]
  {
    var after := Apply(store, step);
    var path := Path(store, step.session);
    PathShape(store, step.session);
    forall i | 0 <= i < |path| - 1
      ensures Shown(after, path[i], excludeRun) == Shown(store, path[i], excludeRun)
    {
      assert path[i].session != step.session;
      StepMessages(store, step, path[i].session);
    }
    StepMessages(store, step, step.session);
    CollectLonger(store, after, path, Message(step.run, step.role, step.text, |MessagesOf(store, step.session)| + 1),
                  excludeRun);
  }

  lemma CollectLonger(before: Store, after: Store, path: seq<Segment>, m: Message, excludeRun: Option<Id>)
    requires path != [] && path[|path| - 1].maxPosition.None?
    requires forall i :: 0 <= i < |path| - 1 ==> Shown(after, path[i], excludeRun) == Shown(before, path[i], excludeRun)
    requires MessagesOf(after, path[|path| - 1].session) == MessagesOf(before, path[|path| - 1].session) + [m]
    ensures Collect(after, path, excludeRun) ==
              Collect(before, path, excludeRun) + if excludeRun == Some(m.run) then [] else [m]
  {
    CollectCongruent(before, after, path[..|path| - 1], excludeRun);
    ShownAfterAppend(before, after, path[|path| - 1], m, excludeRun);
  }

  ghost predicate NeverAppendsTo(steps: seq<Step>, session: Id) {
    forall i :: 0 <= i < |steps| && steps[i].Append? ==> steps[i].session != session
  }

  /** Over every interleaving of creations, claims, appends and forks: as long as nothing is appended
      to the session itself, what it sees stays what it saw. */
  lemma {:induction false} RunsIsolate(store: Store, steps: seq<Step>, session: Id, excludeRun: Option<Id>, limit: nat)
    requires Good(store) && session in store.sessions && NeverAppendsTo(steps, session)
    ensures var after := RunFrom(store, steps);
            && Good(after) && session in after.sessions
            && Resolve(store, session).Success? && Resolve(after, session).Success?
            && History(after, session, excludeRun, limit) == History(store, session, excludeRun, limit)
  {
    ResolvesToPath(store, session, {});
    if steps != [] {
      var front := steps[..|steps| - 1];
      var step := steps[|steps| - 1];
      RunsIsolate(store, front, session, excludeRun, limit);
      var before := RunFrom(store, front);
      if Allowed(before, step) { StepIsolates(before, step, session, excludeRun, limit); }
    }
  }

  // ---------------------------------------------------------------- what a fork shows

  /** The longest front of a history without a message of the run. */
  function BeforeRun(messages: seq<Message>, run: Id): seq<Message> {
    if messages == [] || messages[0].run == run then [] else [messages[0]] + BeforeRun(messages[1..], run)
  }

  lemma {:induction false} BeforeRunSplits(front: seq<Message>, rest: seq<Message>, run: Id)
    requires forall i :: 0 <= i < |front| ==> front[i].run != run
    requires rest != [] ==> rest[0].run == run
    ensures BeforeRun(front + rest, run) == front
  {
    if front == [] {
      assert front + rest == rest;
    } else {
      assert (front + rest)[1..] == front[1..] + rest;
      BeforeRunSplits(front[1..], rest, run);
    }
  }

  lemma {:induction false} InRangeUnclamped(messages: seq<Message>)
    ensures InRange(messages, None, None) == messages
  {
    if messages != [] {
      InRangeUnclamped(messages[..|messages| - 1]);
    }
  }

  lemma {:induction false} InRangeIsPrefix(messages: seq<Message>, p: nat)
    requires forall i :: 0 <= i < |messages| ==> messages[i].position == i + 1
    ensures InRange(messages, Some(p), None) == messages[..if p < |messages| then p else |messages|]
  {
    if messages != [] {
      var front := messages[..|messages| - 1];
      InRangeIsPrefix(front, p);
      if p < |messages| {
        assert messages[..p] == front[..p];
      }
    }
  }

  lemma {:induction false} InRangeSubset(messages: seq<Message>, maxPosition: Option<nat>, run: Id)
    requires forall i :: 0 <= i < |messages| ==> messages[i].run != run
    ensures forall i :: 0 <= i < |InRange(messages, maxPosition, None)| ==>
        InRange(messages, maxPosition, None)[i].run != run
  {
    if messages != [] {
      InRangeSubset(messages[..|messages| - 1], maxPosition, run);
    }
  }

  /** A run's messages are found in its own session only. */
  lemma {:induction false} CollectedRuns(store: Store, segments: seq<Segment>, session: Id, run: Id)
    requires Forest(store) && run in store.runs && store.runs[run].session == session
    requires forall i :: 0 <= i < |segments| ==> segments[i].session != session
    ensures forall i :: 0 <= i < |Collect(store, segments, None)| ==> Collect(store, segments, None)[i].run != run
  {
    if segments != [] {
      var last := segments[|segments| - 1];
      CollectedRuns(store, segments[..|segments| - 1], session, run);
      assert last.session != session && NumberedFor(store, last.session);
      InRangeSubset(MessagesOf(store, last.session), last.maxPosition, run);
    }
  }

  lemma FirstOfRun(messages: seq<Message>, run: Id)
    requires forall i :: 0 <= i < |messages| ==> messages[i].position == i + 1
    requires OfRun(messages, run) != []
    ensures var p := MinPosition(OfRun(messages, run));
            && 1 <= p <= |messages| && messages[p - 1].run == run
            && forall i :: 0 <= i < p - 1 ==> messages[i].run != run
  {
    OfRunWithin(messages, run);
    var at := MinPositionIsLeast(OfRun(messages, run));
    assert OfRun(messages, run)[at] in messages;
  }

  /** What the parent's own segment shows once clamped at a rewrite fork. */
  lemma ClampedShows(store: Store, parent: Id, run: Id, position: nat)
    requires NumberedFor(store, parent)
    requires run in store.runs && store.runs[run].session == parent
    requires position == ForkPosition(store, Target(None, run))
    ensures var mine := MessagesOf(store, parent);
            if OfRun(mine, run) == [] then Shown(store, Segment(parent, Some(position)), None) == []
            else
              && position < |mine| && mine[position].run == run
              && Shown(store, Segment(parent, Some(position)), None) == mine[..position]
              && forall i :: 0 <= i < position ==> mine[i].run != run
  {
    var mine := MessagesOf(store, parent);
    InRangeIsPrefix(mine, position);
    if OfRun(mine, run) != [] { FirstOfRun(mine, run); }
  }

  lemma CollectEnds(store: Store, path: seq<Segment>, session: Id)
    requires path != [] && path[|path| - 1] == Segment(session, None)
    ensures Collect(store, path, None) == Collect(store, path[..|path| - 1], None) + MessagesOf(store, session)
  {
    InRangeUnclamped(MessagesOf(store, session));
  }

  lemma CutAtRun(store: Store, path: seq<Segment>, run: Id, position: nat)
    requires Forest(store) && path != [] && run in store.runs
    requires path[|path| - 1] == Segment(store.runs[run].session, None)
    requires forall i :: 0 <= i < |path| - 1 ==> path[i].session != store.runs[run].session
    requires position == ForkPosition(store, Target(None, run))
    ensures var above := path[..|path| - 1];
            Collect(store, above, None) + Shown(store, Segment(store.runs[run].session, Some(position)), None) ==
              if OfRun(MessagesOf(store, store.runs[run].session), run) != []
              then BeforeRun(Collect(store, path, None), run) else Collect(store, above, None)
  {
    var parent := store.runs[run].session;
    var above, mine := path[..|path| - 1], MessagesOf(store, parent);
    assert NumberedFor(store, parent);
    ClampedShows(store, parent, run, position);
    if OfRun(mine, run) != [] {
      CollectedRuns(store, above, parent, run);
      CollectEnds(store, path, parent);
      BeforeRunCut(Collect(store, above, None), mine, position, run);
    }
  }

  lemma BeforeRunCut(above: seq<Message>, mine: seq<Message>, position: nat, run: Id)
    requires position < |mine| && mine[position].run == run
    requires forall i :: 0 <= i < |above| ==> above[i].run != run
    requires forall i :: 0 <= i < position ==> mine[i].run != run
    ensures BeforeRun(above + mine, run) == above + mine[..position]
  {
    var front := above + mine[..position];
    assert above + mine == front + mine[position..];
    BeforeRunSplits(front, mine[position..], run);
  }

  lemma ForkedPath(store: Store, active: Id, run: Id, child: Id)
    requires Good(store) && child !in store.sessions
    requires PlanBranch(store, active, Some(run), None).Success?
    ensures var parent := store.runs[run].session;
            var after := Apply(store, Fork(active, Some(run), None, child));
            && run in store.runs && parent in store.sessions && Good(after) && child in after.sessions
            && Path(after, child) == Path(store, parent)[..|Path(store, parent)| - 1]
                 + [Segment(parent, Some(ForkPosition(store, Target(None, run)))), Segment(child, None)]
  {
    var parent := store.runs[run].session;
    var step := Fork(active, Some(run), None, child);
    PlanIsWellPlaced(store, active, Some(run), None);
    StepSettlesPaths(store, step, parent);
  }

  /** Right after a fork from a run, the child sees what the run's session sees before that run's first
      message; if the run wrote nothing, it sees only what that session inherited. */
  lemma ForkShowsPrefix(store: Store, active: Id, run: Id, child: Id)
    requires Good(store) && child !in store.sessions
    requires PlanBranch(store, active, Some(run), None).Success?
    ensures var parent := store.runs[run].session;
            var after := Apply(store, Fork(active, Some(run), None, child));
            && Resolve(store, parent).Success? && Resolve(after, child).Success?
            && var shown := Collect(after, Resolve(after, child).value.segments, None);
               var above := Resolve(store, parent).value.segments;
               if OfRun(MessagesOf(store, parent), run) != []
               then shown == BeforeRun(Collect(store, above, None), run)
               else shown == Collect(store, above[..|above| - 1], None)
  {
    ForkedPath(store, active, run, child);
    ForkedPathShows(store, active, run, child);
    ResolvedSegments(store, store.runs[run].session);
    ResolvedSegments(Apply(store, Fork(active, Some(run), None, child)), child);
  }

  lemma ForkedPathShows(store: Store, active: Id, run: Id, child: Id)
    requires Good(store) && child !in store.sessions
    requires PlanBranch(store, active, Some(run), None).Success?
    ensures var parent := store.runs[run].session;
            var after := Apply(store, Fork(active, Some(run), None, child));
            && run in store.runs && parent in store.sessions && Good(after) && child in after.sessions
            && var path := Path(store, parent);
               Collect(after, Path(after, child), None) ==
                 if OfRun(MessagesOf(store, parent), run) != [] then BeforeRun(Collect(store, path, None), run)
                 else Collect(store, path[..|path| - 1], None)
  {
    ForkedPath(store, active, run, child);
    var step, parent := Fork(active, Some(run), None, child), store.runs[run].session;
    var path, position := Path(store, parent), ForkPosition(store, Target(None, run));
    PathShape(store, parent);
    CutAtRun(store, path, run, position);
    FreshChildShows(store, step, path[..|path| - 1], Segment(parent, Some(position)));
  }

  /** The fresh child adds nothing to what its clamped ancestors show. */
  lemma FreshChildShows(store: Store, step: Step, above: seq<Segment>, clamped: Segment)
    requires Good(store) && Allowed(store, step) && step.Fork?
    ensures Collect(Apply(store, step), above + [clamped, Segment(step.child, None)], None)
         == Collect(store, above, None) + Shown(store, clamped, None)
  {
    var after := Apply(store, step);
    var two := above + [clamped];
    forall i | 0 <= i < |two|
      ensures Shown(after, two[i], None) == Shown(store, two[i], None)
    {
      StepMessages(store, step, two[i].session);
    }
    CollectCongruent(store, after, two, None);
    StepMessages(store, step, step.child);
    assert NumberedFor(store, step.child);
    var all := above + [clamped, Segment(step.child, None)];
    assert all[..|all| - 1] == two && two[..|two| - 1] == above;
  }

  // ---------------------------------------------------------------- when a fork is a snapshot

  lemma {:induction false} CollectGrows(before: Store, after: Store, segments: seq<Segment>, k: nat, m: Message)
    requires k < |segments| && segments[k].maxPosition.Some?
    requires MessagesOf(after, segments[k].session) == MessagesOf(before, segments[k].session) + [m]
    requires forall i :: 0 <= i < |segments| && i != k ==>
               Shown(after, segments[i], None) == Shown(before, segments[i], None)
    ensures |Collect(after, segments, None)| ==
              |Collect(before, segments, None)| + (if m.position > segments[k].maxPosition.value then 0 else 1)
  {
    var front := segments[..|segments| - 1];
    if k == |segments| - 1 {
      CollectCongruent(before, after, front, None);
      ShownAfterAppend(before, after, segments[k], m, None);
    } else {
      CollectGrows(before, after, front, k, m);
      assert Shown(after, segments[|segments| - 1], None) == Shown(before, segments[|segments| - 1], None);
    }
  }

  lemma AppendToAncestor(store: Store, path: seq<Segment>, k: nat, run: Id, role: Role, text: string)
    requires Forest(store) && k < |path| && path[k].maxPosition.Some?
    requires forall i, j :: 0 <= i < j < |path| ==> path[i].session != path[j].session
    requires run in store.runs && store.runs[run].session == path[k].session
    ensures var after := AppendMessage(store, path[k].session, run, role, text);
            Collect(after, path, None) == Collect(store, path, None) <==>
              path[k].maxPosition.value <= |MessagesOf(store, path[k].session)|
  {
    var after := AppendMessage(store, path[k].session, run, role, text);
    AppendKeepsForest(store, path[k].session, run, role, text);
    var m := Message(run, role, text, |MessagesOf(store, path[k].session)| + 1);
    forall i | 0 <= i < |path| && i != k
      ensures Shown(after, path[i], None) == Shown(store, path[i], None)
    {
      assert path[i].session != path[k].session;
    }
    CollectGrows(store, after, path, k, m);
    ShownAfterAppend(store, after, path[k], m, None);
    if path[k].maxPosition.value <= |MessagesOf(store, path[k].session)| {
      CollectCongruent(store, after, path, None);
    }
  }

  /** In any forest: a session is safe from the next message of one of its ancestors if and only if
      the clamp on that ancestor lies within the messages the ancestor already has. */
  lemma SnapshotIffClampInPast(store: Store, session: Id, k: nat, run: Id, role: Role, text: string)
    requires Forest(store) && session in store.sessions && k < |Path(store, session)| - 1
    requires run in store.runs && store.runs[run].session == Path(store, session)[k].session
    ensures var ancestor := Path(store, session)[k];
            var after := AppendMessage(store, ancestor.session, run, role, text);
            && ancestor.maxPosition.Some?
            && Resolve(store, session).Success? && Resolve(after, session).Success?
            && (Collect(after, Resolve(after, session).value.segments, None) ==
                  Collect(store, Resolve(store, session).value.segments, None)
                <==> ancestor.maxPosition.value <= |MessagesOf(store, ancestor.session)|)
  {
    var path := Path(store, session);
    var after := AppendMessage(store, path[k].session, run, role, text);
    PathShape(store, session);
    AppendKeepsForest(store, path[k].session, run, role, text);
    PathSettled(store, after, session);
    ResolvedSegments(store, session);
    ResolvedSegments(after, session);
    PathIsDistinct(store, session);
    AppendToAncestor(store, path, k, run, role, text);
  }

  lemma ResolvedSegments(store: Store, session: Id)
    requires Forest(store) && session in store.sessions
    ensures Resolve(store, session).Success? && Resolve(store, session).value.segments == Path(store, session)
  {
    ResolvesToPath(store, session, {});
  }

  lemma PathIsDistinct(store: Store, session: Id)
    requires Forest(store) && session in store.sessions
    ensures var path := Path(store, session); forall i, j | 0 <= i < j < |path| :: path[i].session != path[j].session
  {
    var path := Path(store, session);
    PathShape(store, session);
    forall i, j | 0 <= i < j < |path| ensures path[i].session != path[j].session {
      assert store.sessions[path[i].session] < store.sessions[path[j].session];
    }
  }

  lemma AppendKeepsForest(store: Store, session: Id, run: Id, role: Role, text: string)
    requires Forest(store) && run in store.runs && store.runs[run].session == session
    ensures Forest(AppendMessage(store, session, run, role, text))
    ensures MessagesOf(AppendMessage(store, session, run, role, text), session) ==
              MessagesOf(store, session) + [Message(run, role, text, |MessagesOf(store, session)| + 1)]
  {
    var after := AppendMessage(store, session, run, role, text);
    assert NumberedFor(store, session);
    NextPositionIsLength(MessagesOf(store, session));
    forall s
      ensures NumberedFor(after, s) && BranchWellPlaced(after, s)
    {
      assert NumberedFor(store, s) && BranchWellPlaced(store, s);
    }
  }

  /** ... and a planned branch is such a snapshot if and only if its checkpoint does not name a message
      position beyond the parent's last message; forks from a run always are. */
  lemma PlannedForkIsSnapshotIff(store: Store, active: Id, runId: Option<Id>, checkpointId: Option<Id>)
    requires Forest(store) && PlanBranch(store, active, runId, checkpointId).Success?
    ensures var b := PlanBranch(store, active, runId, checkpointId).value;
            b.forkPosition <= |MessagesOf(store, b.parent)| <==>
            !(checkpointId.Some? && checkpointId.value in store.checkpoints
              && store.checkpoints[checkpointId.value].messagePosition.Some?
              && store.checkpoints[checkpointId.value].messagePosition.value > |MessagesOf(store, b.parent)|)
  {
    var lineage := Resolve(store, active).value;
    var target := ResolveTarget(store, lineage, runId, checkpointId).value;
    ForkPositionInParent(store, target);
  }

  function LateCheckpointStore(): Store {
    Store(map["s" := 0], map[], map["s" := [Message("r", User, "text", 1)]], map["r" := Run("s", Completed)],
          map["c" := Checkpoint("s", "r", Stable, Some(5))])
  }

  function LateFork(): Store {
    LateCheckpointStore().(sessions := map["s" := 0, "x" := 1],
                           branches := map["x" := Branch("s", "s", "r", Some("c"), 5)])
  }

  lemma LateCheckpointPlanned()
    ensures PlanBranch(LateCheckpointStore(), "s", None, Some("c")) == Success(Branch("s", "s", "r", Some("c"), 5))
  {
    var store, lineage := LateCheckpointStore(), Lineage(None, [Segment("s", None)]);
    assert Resolve(store, "s") == Success(lineage);
    assert FindSession(lineage.segments, "s").Some?;
    assert ResolveTarget(store, lineage, None, Some("c")).Success?;
  }

  lemma LateCheckpointForked()
    ensures Apply(LateCheckpointStore(), Fork("s", None, Some("c"), "x")) == LateFork()
  {
    LateCheckpointPlanned();
    assert AddSession(LateCheckpointStore(), "x").sessions == map["s" := 0, "x" := 1];
  }

  lemma LateForkIsForest()
    ensures Forest(LateFork()) && Path(LateFork(), "x") == [Segment("s", Some(5)), Segment("x", None)]
  {
    var store := LateFork();
    forall session ensures NumberedFor(store, session) { }
    forall child ensures BranchWellPlaced(store, child) { }
    assert Path(store, "s") == [Segment("s", None)];
    assert [Segment("s", None)][..0] == [];
  }

  /** A checkpoint that records position 5 where one message is: the fork is planned beyond the parent's
      messages, and the next message of the parent appears in the child. */
  lemma LateCheckpointWitness()
    ensures PlanBranch(LateCheckpointStore(), "s", None, Some("c")) == Success(Branch("s", "s", "r", Some("c"), 5))
    ensures Apply(LateCheckpointStore(), Fork("s", None, Some("c"), "x")) == LateFork()
    ensures var after := AppendMessage(LateFork(), "s", "r", User, "more");
      Resolve(LateFork(), "x").Success? && Resolve(after, "x").Success?
      && Collect(after, Resolve(after, "x").value.segments, None)
         != Collect(LateFork(), Resolve(LateFork(), "x").value.segments, None)
  {
    LateCheckpointPlanned();
    LateCheckpointForked();
    LateForkIsForest();
    SnapshotIffClampInPast(LateFork(), "x", 0, "r", User, "more");
  }
}
