/**
 What a listing of a conversation holds, said on the stored messages: which ones, in which order, and where a
 fork cuts them.
 */
module SessionListing {
  import opened Wrappers
  import opened Places
  import opened SessionBranching
  import opened SessionIsolation
  import opened SessionHistory

  // ---------------------------------------------------------------- which messages, in which order

  ghost predicate Passes(m: Message, maxPosition: Option<nat>, excludeRun: Option<Id>) {
    (maxPosition.Some? ==> m.position <= maxPosition.value) && (excludeRun.Some? ==> m.run != excludeRun.value)
  }

  /** `at` lists, in stored order, exactly the messages of one session that pass. */
  ghost predicate Picks(messages: seq<Message>, maxPosition: Option<nat>, excludeRun: Option<Id>,
                        shown: seq<Message>, at: seq<nat>)
  {
    && |at| == |shown| && Ascending(at)
    && (forall k :: 0 <= k < |at| ==> at[k] < |messages| && shown[k] == messages[at[k]])
    && (forall i: nat :: i in at <==> i < |messages| && Passes(messages[i], maxPosition, excludeRun))
  }

  lemma {:induction false} RangePicks(messages: seq<Message>, maxPosition: Option<nat>, excludeRun: Option<Id>)
    returns (at: seq<nat>)
    ensures Picks(messages, maxPosition, excludeRun, InRange(messages, maxPosition, excludeRun), at)
  {
    at := [];
    if messages != [] {
      var n := |messages| - 1;
      var front := RangePicks(messages[..n], maxPosition, excludeRun);
      PicksWith(messages[..n], messages[n], maxPosition, excludeRun,
                InRange(messages[..n], maxPosition, excludeRun), front);
      RangeWith(messages[..n], messages[n], maxPosition, excludeRun);
      assert messages == messages[..n] + [messages[n]];
      at := if Passes(messages[n], maxPosition, excludeRun) then front + [n] else front;
    }
  }

  lemma RangeWith(messages: seq<Message>, m: Message, maxPosition: Option<nat>, excludeRun: Option<Id>)
    ensures InRange(messages + [m], maxPosition, excludeRun) ==
              InRange(messages, maxPosition, excludeRun) + if Passes(m, maxPosition, excludeRun) then [m] else []
  {
    assert (messages + [m])[..|messages|] == messages;
  }

  lemma PicksWith(messages: seq<Message>, m: Message, maxPosition: Option<nat>, excludeRun: Option<Id>,
                  shown: seq<Message>, at: seq<nat>)
    requires Picks(messages, maxPosition, excludeRun, shown, at)
    ensures if Passes(m, maxPosition, excludeRun)
            then Picks(messages + [m], maxPosition, excludeRun, shown + [m], at + [|messages|])
            else Picks(messages + [m], maxPosition, excludeRun, shown, at)
  {
    forall k | 0 <= k < |at|
      ensures at[k] < |messages| && shown[k] == messages[at[k]]
    {
      assert at[k] in at;
    }
  }

  // A place is a segment and an index in that segment's session.

  ghost predicate Visible(store: Store, segments: seq<Segment>, excludeRun: Option<Id>, p: Place) {
    && p.0 < |segments| && p.1 < |MessagesOf(store, segments[p.0].session)|
    && Passes(MessagesOf(store, segments[p.0].session)[p.1], segments[p.0].maxPosition, excludeRun)
  }

  /** `at` lists exactly the visible places, segment by segment and in stored order within each; `shown` are the
      messages there. */
  ghost predicate Lists(store: Store, segments: seq<Segment>, excludeRun: Option<Id>, shown: seq<Message>,
                        at: seq<Place>)
  {
    && |at| == |shown| && Ordered(at)
    && (forall k :: 0 <= k < |at| ==> Visible(store, segments, excludeRun, at[k])
                                      && shown[k] == MessagesOf(store, segments[at[k].0].session)[at[k].1])
    && (forall p: Place :: Visible(store, segments, excludeRun, p) ==> p in at)
  }

  /** What is collected along a lineage: each segment's messages up to its clamp and not of the excluded run, each
      once, in the order of the lineage and then as stored. */
  lemma {:induction false} CollectLists(store: Store, segments: seq<Segment>, excludeRun: Option<Id>)
    returns (at: seq<Place>)
    ensures Lists(store, segments, excludeRun, Collect(store, segments, excludeRun), at)
  {
    at := [];
    if segments != [] {
      var n := |segments| - 1;
      var front, last := segments[..n], segments[n];
      var earlier := CollectLists(store, front, excludeRun);
      var own := RangePicks(MessagesOf(store, last.session), last.maxPosition, excludeRun);
      at := earlier + Placed(n, own);
      ListsWith(store, front, last, excludeRun, Collect(store, front, excludeRun), Shown(store, last, excludeRun),
                earlier, own);
      assert segments == front + [last];
    }
  }

  lemma VisibleIsListed(store: Store, front: seq<Segment>, last: Segment, excludeRun: Option<Id>, at: seq<Place>,
                        more: seq<nat>)
    requires forall p: Place :: Visible(store, front, excludeRun, p) ==> p in at
    requires forall i ::
               0 <= i < |MessagesOf(store, last.session)|
               && Passes(MessagesOf(store, last.session)[i], last.maxPosition, excludeRun) ==>
                 i in more
    ensures forall p: Place :: Visible(store, front + [last], excludeRun, p) ==> p in at + Placed(|front|, more)
  {
    forall p: Place | Visible(store, front + [last], excludeRun, p)
      ensures p in at + Placed(|front|, more)
    {
      if p.0 < |front| {
        assert Visible(store, front, excludeRun, p);
      } else {
        var k :| 0 <= k < |more| && more[k] == p.1;
        assert (at + Placed(|front|, more))[|at| + k] == p;
      }
    }
  }

  lemma ListsWith(store: Store, front: seq<Segment>, last: Segment, excludeRun: Option<Id>, earlier: seq<Message>,
                  own: seq<Message>, at: seq<Place>, more: seq<nat>)
    requires Lists(store, front, excludeRun, earlier, at)
    requires Picks(MessagesOf(store, last.session), last.maxPosition, excludeRun, own, more)
    ensures Lists(store, front + [last], excludeRun, earlier + own, at + Placed(|front|, more))
  {
    var segments, all := front + [last], at + Placed(|front|, more);
    VisibleIsListed(store, front, last, excludeRun, at, more);
    forall k | 0 <= k < |all|
      ensures Visible(store, segments, excludeRun, all[k])
      ensures (earlier + own)[k] == MessagesOf(store, segments[all[k].0].session)[all[k].1]
    {
      if k < |at| {
        assert Visible(store, front, excludeRun, at[k]);
      } else {
        assert more[k - |at|] in more;
      }
    }
    forall k | 0 <= k < |at|
      ensures at[k].0 < |front|
    {
      assert Visible(store, front, excludeRun, at[k]);
    }
    OrderedAppend(at, Placed(|front|, more), |front|);
  }

  /** The last `limit` of all, or all of them, place for place. */
  ghost predicate IsTail(listed: seq<Message>, all: seq<Message>, limit: nat) {
    && |listed| == (if limit < |all| then limit else |all|)
    && forall i :: 0 <= i < |listed| ==> listed[i] == all[|all| - |listed| + i]
  }

  lemma TailIs(all: seq<Message>, from: nat, limit: nat)
    requires from <= |all| && |all| - from == if limit < |all| then limit else |all|
    ensures IsTail(all[from..], all, limit)
  {
  }

  /** A listing holds the last `limit` of the messages collected along the lineage. */
  lemma ListingIsTail(store: Store, lineage: Lineage, excludeRun: Option<Id>, limit: nat)
    ensures IsTail(ListVisible(store, lineage, excludeRun, limit), Collect(store, lineage.segments, excludeRun), limit)
  {
    var all := Collect(store, lineage.segments, excludeRun);
    TailIs(all, if |all| < limit then 0 else |all| - limit, limit);
  }

  /** A message appended to a session is the last one its listing shows; the others move up by one and, when
      the listing is full, the oldest leaves it. */
  lemma AppendIsListedLast(store: Store, session: Id, run: Id, role: Role, text: string, excludeRun: Option<Id>,
                           limit: nat)
    requires Good(store) && run in store.runs && store.runs[run].session == session
    requires limit >= 1 && excludeRun != Some(run)
    ensures var after := AppendMessage(store, session, run, role, text);
      && Resolve(store, session).Success? && Resolve(after, session).Success?
      && var was, now := History(store, session, excludeRun, limit), History(after, session, excludeRun, limit);
         now == (if |was| < limit then was else was[1..])
               + [Message(run, role, text, |MessagesOf(store, session)| + 1)]
  {
    AppendExtends(store, session, run, role, text, excludeRun);
    var after := AppendMessage(store, session, run, role, text);
    var was, now := Resolve(store, session).value, Resolve(after, session).value;
    ListingIsTail(store, was, excludeRun, limit);
    ListingIsTail(after, now, excludeRun, limit);
    TailMoves(ListVisible(store, was, excludeRun, limit), ListVisible(after, now, excludeRun, limit),
              Collect(store, was.segments, excludeRun),
              Message(run, role, text, |MessagesOf(store, session)| + 1), limit);
  }

  lemma TailMoves(was: seq<Message>, now: seq<Message>, all: seq<Message>, m: Message, limit: nat)
    requires limit >= 1 && IsTail(was, all, limit) && IsTail(now, all + [m], limit)
    ensures now == (if |was| < limit then was else was[1..]) + [m]
  {
  }

  // ---------------------------------------------------------------- where a fork cuts

  /** A message of the run, by its user if only those count. */
  ghost predicate Wanted(m: Message, run: Id, ofUser: bool) {
    m.run == run && (ofUser ==> m.role == User)
  }

  /** `p` messages stand before the first wanted one, all of them when there is none. */
  ghost predicate FirstAt(messages: seq<Message>, run: Id, ofUser: bool, p: nat) {
    && p <= |messages| && (p < |messages| ==> Wanted(messages[p], run, ofUser))
    && forall i :: 0 <= i < p ==> !Wanted(messages[i], run, ofUser)
  }

  ghost function Kept(messages: seq<Message>, run: Id, ofUser: bool): seq<Message> {
    if ofUser then OfUsers(OfRun(messages, run)) else OfRun(messages, run)
  }

  lemma KeptWith(front: seq<Message>, last: Message, run: Id, ofUser: bool)
    ensures Kept(front + [last], run, ofUser) ==
              Kept(front, run, ofUser) + if Wanted(last, run, ofUser) then [last] else []
  {
    var mine := OfRun(front, run);
    assert (front + [last])[..|front|] == front;
    assert (mine + [last])[..|mine|] == mine;
  }

  /** The least position of the kept messages is that of the first one. */
  lemma {:induction false} LeastIsFirst(messages: seq<Message>, run: Id, ofUser: bool, p: nat)
    requires forall i :: 0 <= i < |messages| ==> messages[i].position == i + 1
    requires FirstAt(messages, run, ofUser, p)
    ensures Kept(messages, run, ofUser) == [] <==> p == |messages|
    ensures p < |messages| ==> MinPosition(Kept(messages, run, ofUser)) == p + 1
  {
    if messages != [] {
      var front, last := messages[..|messages| - 1], messages[|messages| - 1];
      var kept := Kept(front, run, ofUser);
      LeastIsFirst(front, run, ofUser, if p < |front| then p else |front|);
      assert messages == front + [last];
      KeptWith(front, last, run, ofUser);
      assert (kept + [last])[..|kept|] == kept;
    }
  }

  /** A fork from a run keeps what precedes the run's first message. A fork from a checkpoint keeps what the
      checkpoint names; when it names nothing, everything up to the run's first user message, that message
      included, and without one what precedes the run's first message. A run without messages keeps nothing. */
  lemma ForkCutsAt(store: Store, target: Target, first: nat, asked: nat)
    requires target.run in store.runs && NumberedFor(store, store.runs[target.run].session)
    requires FirstAt(MessagesOf(store, store.runs[target.run].session), target.run, false, first)
    requires FirstAt(MessagesOf(store, store.runs[target.run].session), target.run, true, asked)
    ensures var mine := MessagesOf(store, store.runs[target.run].session);
      var before := if first < |mine| then first else 0;
      ForkPosition(store, target) ==
        match target.checkpoint
        case None => before
        case Some(c) =>
          match c.messagePosition
          case Some(position) => if position < 0 then 0 else position
          case None => if asked < |mine| then asked + 1 else before
  {
    var mine := MessagesOf(store, store.runs[target.run].session);
    LeastIsFirst(mine, target.run, false, first);
    LeastIsFirst(mine, target.run, true, asked);
  }

  // ---------------------------------------------------------------- which forks are refused

  /** The session lies on the path of the active one. */
  ghost predicate Sees(store: Store, active: Id, session: Id)
    requires Forest(store) && active in store.sessions
  {
    exists i :: 0 <= i < |Path(store, active)| && Path(store, active)[i].session == session
  }

  /** The first thing that is wrong with a run as the target of a fork. */
  ghost function RunObstacle(store: Store, active: Id, run: Id): Option<Error>
    requires Forest(store) && active in store.sessions
  {
    if run !in store.runs then Some(RunNotFound(run))
    else if !Sees(store, active, store.runs[run].session) then Some(RunNotVisible(run))
    else if store.runs[run].status in {Queued, Running, Suspended} then Some(RunNotBranchable(run))
    else None
  }

  /** The first thing that is wrong with a request to fork; the conditions are checked in this order. */
  ghost function Obstacle(store: Store, active: Id, runId: Option<Id>, checkpointId: Option<Id>): Option<Error>
    requires Forest(store)
  {
    if active !in store.sessions then Some(SessionNotFound(active))
    else if runId.Some? && checkpointId.Some? then Some(TargetAmbiguous)
    else if runId.None? && checkpointId.None? then Some(TargetRequired)
    else if runId.Some? then RunObstacle(store, active, runId.value)
    else
      var id := checkpointId.value;
      if id !in store.checkpoints then Some(CheckpointNotFound(id))
      else if store.checkpoints[id].status == StepFailed then Some(CheckpointNotBranchable(id))
      else if store.checkpoints[id].run !in store.runs then Some(RunNotFound(store.checkpoints[id].run))
      else if !Sees(store, active, store.checkpoints[id].session) then Some(CheckpointNotVisible(id))
      else RunObstacle(store, active, store.checkpoints[id].run)
  }

  lemma {:induction false} FoundIffThere(segments: seq<Segment>, session: Id)
    ensures FindSession(segments, session).Some? <==> exists i :: 0 <= i < |segments| && segments[i].session == session
  {
    if segments != [] {
      FoundIffThere(segments[1..], session);
      if exists i :: 0 <= i < |segments| && segments[i].session == session {
        var i :| 0 <= i < |segments| && segments[i].session == session;
        if i > 0 { assert segments[1..][i - 1] == segments[i]; }
      }
    }
  }

  lemma SeenIsFound(store: Store, active: Id, session: Id)
    requires Forest(store) && active in store.sessions
    ensures Resolve(store, active).Success?
    ensures Sees(store, active, session) <==> FindSession(Resolve(store, active).value.segments, session).Some?
    ensures Sees(store, active, session) ==> session in store.sessions
  {
    ResolvedSegments(store, active);
    FoundIffThere(Path(store, active), session);
    PathShape(store, active);
  }

  /** A fork is refused with the first obstacle; without one, the branch row names the run's own session as the
      parent, that session's root, the run, the checkpoint asked for and the place of the cut. */
  lemma ForkRefusedIff(store: Store, active: Id, runId: Option<Id>, checkpointId: Option<Id>)
    requires Forest(store)
    ensures var planned, obstacle := PlanBranch(store, active, runId, checkpointId),
                                     Obstacle(store, active, runId, checkpointId);
      && (planned.Failure? <==> obstacle.Some?)
      && (planned.Failure? ==> planned.error == obstacle.value)
      && (planned.Success? ==>
            var branch, checkpoint := planned.value,
                if checkpointId.Some? then Some(store.checkpoints[checkpointId.value]) else None;
            var run := if checkpointId.Some? then checkpoint.value.run else runId.value;
            var parent := store.runs[run].session;
            branch == Branch(parent, if parent in store.branches then store.branches[parent].root else parent, run,
                             checkpointId, ForkPosition(store, Target(checkpoint, run))))
  {
    if active !in store.sessions {
      assert Resolve(store, active) == Failure(SessionNotFound(active));
    } else {
      ResolvedSegments(store, active);
      if checkpointId.Some? && checkpointId.value in store.checkpoints {
        SeenIsFound(store, active, store.checkpoints[checkpointId.value].session);
        if store.checkpoints[checkpointId.value].run in store.runs {
          RunPlanned(store, active, store.checkpoints[checkpointId.value].run);
        }
      } else if runId.Some? && runId.value in store.runs {
        RunPlanned(store, active, runId.value);
      }
    }
  }

  lemma RunPlanned(store: Store, active: Id, run: Id)
    requires Forest(store) && active in store.sessions && run in store.runs
    ensures Resolve(store, active).Success?
    ensures var session := store.runs[run].session;
      && (Sees(store, active, session) <==> FindSession(Resolve(store, active).value.segments, session).Some?)
      && (Sees(store, active, session) ==>
            && Resolve(store, session).Success?
            && Resolve(store, session).value.branch ==
                 if session in store.branches then Some(store.branches[session]) else None)
  {
    var session := store.runs[run].session;
    SeenIsFound(store, active, session);
    if Sees(store, active, session) { ResolvedSegments(store, session); }
  }
}
