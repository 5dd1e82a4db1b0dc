/**
 Histories are isolated: over every interleaving of appends and forks a session's visible messages
 change only when that session itself is written to.
 */
module SessionIsolation {
  import opened Wrappers
  import opened SessionBranching
  import opened SessionLineage

  // ---------------------------------------------------------------- the forest

  ghost predicate BranchWellPlaced(store: Store, child: Id) {
    child in store.branches ==>
      var b := store.branches[child];
      && child in store.sessions && b.parent in store.sessions
      && store.sessions[b.parent] < store.sessions[child]
      && b.root == (if b.parent in store.branches then store.branches[b.parent].root else b.parent)
  }

  /** The fork lies within what the parent held, so nothing the parent gains later is below it. */
  ghost predicate ForkInParent(store: Store, child: Id) {
    child in store.branches ==>
      store.branches[child].forkPosition <= |MessagesOf(store, store.branches[child].parent)|
  }

  ghost predicate NumberedFor(store: Store, session: Id) {
    var messages := MessagesOf(store, session);
    && (session !in store.sessions ==> messages == [])
    && (forall i :: 0 <= i < |messages| ==>
          && messages[i].position == i + 1
          && messages[i].run in store.runs && store.runs[messages[i].run].session == session)
  }

  ghost predicate RecordsPast(store: Store, checkpoint: Id) {
    checkpoint in store.checkpoints ==>
      var c := store.checkpoints[checkpoint];
      && c.run in store.runs && store.runs[c.run].session == c.session
      && (c.messagePosition.Some? ==> c.messagePosition.value <= |MessagesOf(store, c.session)|)
  }

  ghost predicate Forest(store: Store) {
    && (forall s :: s in store.sessions ==> store.sessions[s] < |store.sessions|)
    && (forall run :: run in store.runs ==> store.runs[run].session in store.sessions)
    && (forall child :: BranchWellPlaced(store, child))
    && (forall session :: NumberedFor(store, session))
  }

  ghost predicate Good(store: Store) {
    && Forest(store)
    && (forall child :: ForkInParent(store, child))
    && (forall checkpoint :: RecordsPast(store, checkpoint))
  }

  /** The lineage as a plain recursion over the forest, without the cycle bookkeeping. */
  ghost function Path(store: Store, session: Id): seq<Segment>
    requires Forest(store) && session in store.sessions
    decreases store.sessions[session]
  {
    assert BranchWellPlaced(store, session);
    if session !in store.branches then [Segment(session, None)]
    else
      var b := store.branches[session];
      var above := Path(store, b.parent);
      above[..|above| - 1] + [Segment(b.parent, Some(b.forkPosition)), Segment(session, None)]
  }

  lemma {:induction false} PathShape(store: Store, session: Id)
    requires Forest(store) && session in store.sessions
    ensures var p := Path(store, session);
            && p != [] && p[|p| - 1] == Segment(session, None)
            && (forall i :: 0 <= i < |p| - 1 ==>
                  p[i].session in store.sessions && store.sessions[p[i].session] < store.sessions[session])
            && (forall i :: 0 <= i < |p| - 1 ==> p[i].maxPosition.Some?)
            && (forall i, j :: 0 <= i < j < |p| ==> store.sessions[p[i].session] < store.sessions[p[j].session])
            && (Good(store) ==> forall i :: 0 <= i < |p| - 1 ==>
                  p[i].maxPosition.value <= |MessagesOf(store, p[i].session)|)
    decreases store.sessions[session]
  {
    assert BranchWellPlaced(store, session);
    if session in store.branches {
      PathShape(store, store.branches[session].parent);
    }
    if Good(store) { ClampsInParents(store, session); }
  }

  lemma {:induction false} ClampsInParents(store: Store, session: Id)
    requires Good(store) && session in store.sessions
    ensures var p := Path(store, session);
            p != [] && p[|p| - 1] == Segment(session, None) && forall i :: 0 <= i < |p| - 1 ==>
              p[i].maxPosition.Some? && p[i].maxPosition.value <= |MessagesOf(store, p[i].session)|
    decreases store.sessions[session]
  {
    assert BranchWellPlaced(store, session);
    if session in store.branches {
      assert ForkInParent(store, session);
      ClampsInParents(store, store.branches[session].parent);
    }
  }

  lemma {:induction false} ResolvesToPath(store: Store, session: Id, seen: set<Id>)
    requires Forest(store) && session in store.sessions
    requires forall s :: s in seen && s in store.sessions ==> store.sessions[session] < store.sessions[s]
    ensures ResolveInner(store, session, seen) == Success(Lineage(
              if session in store.branches then Some(store.branches[session]) else None,
              Path(store, session)))
    decreases store.sessions[session]
  {
    assert BranchWellPlaced(store, session);
    assert session !in seen;
    if session in store.branches {
      var b := store.branches[session];
      ResolvesToPath(store, b.parent, seen + {session});
      PathShape(store, b.parent);
      var above := Path(store, b.parent);
      FindUnique(above, b.parent, |above| - 1);
      assert Path(store, session) ==
             above[..|above| - 1] + [Segment(b.parent, Some(b.forkPosition))] + [Segment(session, None)];
    }
  }

  lemma {:induction false} RootIsFirst(store: Store, session: Id)
    requires Forest(store) && session in store.sessions
    ensures session in store.branches ==> store.branches[session].root == Path(store, session)[0].session
    ensures session !in store.branches ==> session == Path(store, session)[0].session
    decreases store.sessions[session]
  {
    assert BranchWellPlaced(store, session);
    if session in store.branches {
      RootIsFirst(store, store.branches[session].parent);
      PathShape(store, store.branches[session].parent);
    }
  }

  // ---------------------------------------------------------------- positions

  lemma {:induction false} NextPositionIsLength(messages: seq<Message>)
    requires forall i :: 0 <= i < |messages| ==> messages[i].position == i + 1
    ensures NextPosition(messages) == |messages| + 1
  {
    if messages != [] {
      NextPositionIsLength(messages[..|messages| - 1]);
    }
  }

  ghost predicate PositionsOf(part: seq<Message>, messages: seq<Message>) {
    forall i :: 0 <= i < |part| ==> part[i] in messages
  }

  lemma {:induction false} OfRunWithin(messages: seq<Message>, run: Id)
    ensures PositionsOf(OfRun(messages, run), messages) && PositionsOf(OfUsers(messages), messages)
    ensures forall i :: 0 <= i < |messages| && messages[i].run == run ==> messages[i] in OfRun(messages, run)
    ensures forall m :: m in OfRun(messages, run) ==> m.run == run
  {
    if messages != [] {
      OfRunWithin(messages[..|messages| - 1], run);
      assert messages == messages[..|messages| - 1] + [messages[|messages| - 1]];
    }
  }

  /** An index at which the least position stands. */
  lemma {:induction false} MinPositionIsLeast(messages: seq<Message>) returns (at: nat)
    requires messages != []
    ensures at < |messages| && messages[at].position == MinPosition(messages)
    ensures forall i :: 0 <= i < |messages| ==> MinPosition(messages) <= messages[i].position
  {
    at := |messages| - 1;
    if |messages| > 1 {
      var i := MinPositionIsLeast(messages[..|messages| - 1]);
      if messages[at].position >= messages[i].position { at := i; }
    }
  }

  /** Where a fork falls: never past what the parent holds, unless the checkpoint says so. */
  lemma ForkPositionInParent(store: Store, target: Target)
    requires Forest(store) && target.run in store.runs
    ensures ForkPosition(store, target) <= |MessagesOf(store, store.runs[target.run].session)| <==>
            !(target.checkpoint.Some? && target.checkpoint.value.messagePosition.Some? &&
              target.checkpoint.value.messagePosition.value > |MessagesOf(store, store.runs[target.run].session)|)
  {
    var session := store.runs[target.run].session;
    assert NumberedFor(store, session);
    var messages := MessagesOf(store, session);
    var runMessages := OfRun(messages, target.run);
    OfRunWithin(messages, target.run);
    if runMessages != [] { var i := MinPositionIsLeast(runMessages); }
    OfRunWithin(runMessages, target.run);
    if OfUsers(runMessages) != [] { var i := MinPositionIsLeast(OfUsers(runMessages)); }
  }

  // ---------------------------------------------------------------- steps keep the forest

  lemma PlanIsWellPlaced(store: Store, active: Id, runId: Option<Id>, checkpointId: Option<Id>)
    requires Good(store) && PlanBranch(store, active, runId, checkpointId).Success?
    ensures var b := PlanBranch(store, active, runId, checkpointId).value;
            && b.parent in store.sessions
            && b.forkRun in store.runs && store.runs[b.forkRun].session == b.parent
            && b.root == (if b.parent in store.branches then store.branches[b.parent].root else b.parent)
            && b.forkPosition <= |MessagesOf(store, b.parent)|
            && (checkpointId.None? ==>
                  && runId == Some(b.forkRun)
                  && b.forkPosition == ForkPosition(store, Target(None, b.forkRun)))
  {
    var lineage := Resolve(store, active).value;
    var target := ResolveTarget(store, lineage, runId, checkpointId).value;
    var parent := store.runs[target.run].session;
    ResolvesToPath(store, parent, {});
    if checkpointId.Some? { assert RecordsPast(store, checkpointId.value); }
    ForkPositionInParent(store, target);
  }

  lemma AppendGood(store: Store, session: Id, run: Id, role: Role, text: string)
    requires Good(store) && run in store.runs && store.runs[run].session == session
    ensures Good(AppendMessage(store, session, run, role, text))
    ensures MessagesOf(AppendMessage(store, session, run, role, text), session) ==
              MessagesOf(store, session) + [Message(run, role, text, |MessagesOf(store, session)| + 1)]
  {
    var after := AppendMessage(store, session, run, role, text);
    assert NumberedFor(store, session);
    NextPositionIsLength(MessagesOf(store, session));
    forall s
      ensures NumberedFor(after, s)
    {
      assert NumberedFor(store, s);
    }
    forall s
      ensures BranchWellPlaced(after, s) && ForkInParent(after, s)
    {
      assert BranchWellPlaced(store, s) && ForkInParent(store, s);
    }
    forall c
      ensures RecordsPast(after, c)
    {
      assert RecordsPast(store, c);
    }
  }

  lemma AddSessionGood(store: Store, session: Id)
    requires Good(store)
    ensures Good(AddSession(store, session))
  {
    var after := AddSession(store, session);
    forall s
      ensures NumberedFor(after, s) && BranchWellPlaced(after, s) && ForkInParent(after, s)
    {
      assert NumberedFor(store, s) && BranchWellPlaced(store, s) && ForkInParent(store, s);
    }
    forall c
      ensures RecordsPast(after, c)
    {
      assert RecordsPast(store, c);
    }
  }

  lemma ForkGood(store: Store, child: Id, branch: Branch)
    requires Good(store) && child !in store.sessions
    requires branch.parent in store.sessions && branch.forkPosition <= |MessagesOf(store, branch.parent)|
    requires branch.root ==
               (if branch.parent in store.branches then store.branches[branch.parent].root else branch.parent)
    ensures Good(AddSession(store, child).(branches := store.branches[child := branch]))
  {
    AddSessionGood(store, child);
    var added := AddSession(store, child);
    var after := added.(branches := store.branches[child := branch]);
    assert BranchWellPlaced(store, child);
    assert |added.sessions| == |store.sessions| + 1;
    forall s
      ensures NumberedFor(after, s) && BranchWellPlaced(after, s) && ForkInParent(after, s)
    {
      assert NumberedFor(added, s) && BranchWellPlaced(added, s) && ForkInParent(added, s);
      if s in store.branches { assert BranchWellPlaced(store, s) && ForkInParent(store, s); }
    }
    forall c
      ensures RecordsPast(after, c)
    {
      assert RecordsPast(added, c);
    }
  }

  lemma RunsOnlyGood(store: Store, run: Id, row: Run)
    requires Good(store) && row.session in store.sessions
    requires run in store.runs ==> store.runs[run].session == row.session
    ensures Good(store.(runs := store.runs[run := row]))
  {
    var after := store.(runs := store.runs[run := row]);
    forall s
      ensures NumberedFor(after, s) && BranchWellPlaced(after, s) && ForkInParent(after, s)
    {
      assert MessagesOf(after, s) == MessagesOf(store, s);
      assert NumberedFor(store, s) && BranchWellPlaced(store, s) && ForkInParent(store, s);
    }
    forall c
      ensures RecordsPast(after, c)
    {
      assert RecordsPast(store, c);
    }
  }

  lemma RecordGood(store: Store, checkpoint: Id, row: Checkpoint)
    requires Good(store) && Allowed(store, Record(checkpoint, row))
    ensures Good(Apply(store, Record(checkpoint, row)))
  {
    var after := Apply(store, Record(checkpoint, row));
    forall s
      ensures NumberedFor(after, s) && BranchWellPlaced(after, s) && ForkInParent(after, s)
    {
      assert NumberedFor(store, s) && BranchWellPlaced(store, s) && ForkInParent(store, s);
    }
    forall c
      ensures RecordsPast(after, c)
    {
      assert RecordsPast(store, c);
    }
  }

  lemma StepGood(store: Store, step: Step)
    requires Good(store) && Allowed(store, step)
    ensures Good(Apply(store, step))
  {
    match step
    case CreateSession(session) => AddSessionGood(store, session);
    case ClaimRun(run, session) => RunsOnlyGood(store, run, Run(session, Running));
    case SetStatus(run, status) => RunsOnlyGood(store, run, store.runs[run].(status := status));
    case Record(checkpoint, row) => RecordGood(store, checkpoint, row);
    case Append(session, run, role, text) => AppendGood(store, session, run, role, text);
    case Fork(active, runId, checkpointId, child) =>
      if PlanBranch(store, active, runId, checkpointId).Success? {
        PlanIsWellPlaced(store, active, runId, checkpointId);
        ForkGood(store, child, PlanBranch(store, active, runId, checkpointId).value);
      }
  }

  lemma {:induction false} ReachableIsGood(steps: seq<Step>)
    ensures Good(RunFrom(EmptyStore, steps))
  {
    RunsKeepGood(EmptyStore, steps);
  }

  lemma {:induction false} RunsKeepGood(store: Store, steps: seq<Step>)
    requires Good(store)
    ensures Good(RunFrom(store, steps))
  {
    if steps != [] {
      var front := steps[..|steps| - 1];
      RunsKeepGood(store, front);
      var before := RunFrom(store, front);
      if Allowed(before, steps[|steps| - 1]) { StepGood(before, steps[|steps| - 1]); }
    }
  }

  /** In every reachable state the lineage of a session resolves, is the forest path down from the
      root its branch row names, and is clamped at each fork. */
  lemma ReachableResolves(steps: seq<Step>, session: Id)
    requires session in RunFrom(EmptyStore, steps).sessions
    ensures var store := RunFrom(EmptyStore, steps);
            && Good(store)
            && Resolve(store, session).Success?
            && Resolve(store, session).value.segments == Path(store, session)
            && (session in store.branches ==> store.branches[session].root == Path(store, session)[0].session)
  {
    var store := RunFrom(EmptyStore, steps);
    ReachableIsGood(steps);
    ResolvesToPath(store, session, {});
    RootIsFirst(store, session);
  }
}
