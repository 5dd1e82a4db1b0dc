/**
 Conversations that fork copy-on-write: a child session stores only its own messages and sees a
 clamped prefix of its ancestors through its lineage.
 */
module SessionBranching {
  import opened Wrappers

  type Id = string

  datatype RunStatus = Queued | Running | Suspended | Completed | Failed | Canceled
  datatype Run = Run(session: Id, status: RunStatus)

  datatype CheckpointStatus = Stable | Terminal | StepFailed
  datatype Checkpoint = Checkpoint(session: Id, run: Id, status: CheckpointStatus, messagePosition: Option<int>)

  datatype Role = User | Assistant
  datatype Message = Message(run: Id, role: Role, text: string, position: nat)

  datatype Branch = Branch(parent: Id, root: Id, forkRun: Id, forkCheckpoint: Option<Id>, forkPosition: nat)

  /** The tables; a session row carries its creation rank. */
  datatype Store = Store(
    sessions: map<Id, nat>,
    branches: map<Id, Branch>,
    messages: map<Id, seq<Message>>,
    runs: map<Id, Run>,
    checkpoints: map<Id, Checkpoint>)

  const EmptyStore := Store(map[], map[], map[], map[], map[])

  datatype Error =
    | BranchCycle(session: Id)
    | SessionNotFound(session: Id)
    | ParentNotVisible(session: Id)
    | TargetAmbiguous
    | TargetRequired
    | RunNotFound(run: Id)
    | CheckpointNotFound(checkpoint: Id)
    | CheckpointNotBranchable(checkpoint: Id)
    | CheckpointNotVisible(checkpoint: Id)
    | RunNotVisible(run: Id)
    | RunNotBranchable(run: Id)

  // ---------------------------------------------------------------- lineage

  datatype Segment = Segment(session: Id, maxPosition: Option<nat>)
  datatype Lineage = Lineage(branch: Option<Branch>, segments: seq<Segment>)

  function FindSession(segments: seq<Segment>, session: Id): (found: Option<nat>)
    ensures found.Some? ==> found.value < |segments| && segments[found.value].session == session
  {
    if segments == [] then None
    else if segments[0].session == session then Some(0)
    else match FindSession(segments[1..], session)
      case None => None
      case Some(i) => Some(i + 1)
  }

  function Clamp(segment: Segment, maxPosition: nat): Segment {
    match segment.maxPosition
    case None => segment.(maxPosition := Some(maxPosition))
    case Some(p) => segment.(maxPosition := Some(if p < maxPosition then p else maxPosition))
  }

  /** Drops what follows the session's first segment and clamps that segment. */
  function ClampLineageAt(segments: seq<Segment>, session: Id, maxPosition: nat): Result<seq<Segment>, Error> {
    match FindSession(segments, session)
    case None => Failure(ParentNotVisible(session))
    case Some(i) => Success(segments[..i] + [Clamp(segments[i], maxPosition)])
  }

  function ResolveInner(store: Store, session: Id, seen: set<Id>): Result<Lineage, Error>
    decreases store.sessions.Keys - seen
  {
    if session in seen then Failure(BranchCycle(session))
    else if session !in store.sessions then Failure(SessionNotFound(session))
    else if session !in store.branches then Success(Lineage(None, [Segment(session, None)]))
    else
      var branch := store.branches[session];
      match ResolveInner(store, branch.parent, seen + {session})
      case Failure(e) => Failure(e)
      case Success(parent) =>
        match ClampLineageAt(parent.segments, branch.parent, branch.forkPosition)
        case Failure(e) => Failure(e)
        case Success(segments) => Success(Lineage(Some(branch), segments + [Segment(session, None)]))
  }

  function Resolve(store: Store, session: Id): Result<Lineage, Error> {
    ResolveInner(store, session, {})
  }

  // ---------------------------------------------------------------- visible history

  function MessagesOf(store: Store, session: Id): seq<Message> {
    if session in store.messages then store.messages[session] else []
  }

  function InRange(messages: seq<Message>, maxPosition: Option<nat>, excludeRun: Option<Id>): seq<Message> {
    if messages == [] then []
    else
      var rest := InRange(messages[..|messages| - 1], maxPosition, excludeRun);
      var m := messages[|messages| - 1];
      if (maxPosition.Some? && m.position > maxPosition.value) || excludeRun == Some(m.run) then rest else rest + [m]
  }

  /** What one segment contributes. */
  function Shown(store: Store, segment: Segment, excludeRun: Option<Id>): seq<Message> {
    InRange(MessagesOf(store, segment.session), segment.maxPosition, excludeRun)
  }

  function Collect(store: Store, segments: seq<Segment>, excludeRun: Option<Id>): seq<Message> {
    if segments == [] then []
    else
      Collect(store, segments[..|segments| - 1], excludeRun) + Shown(store, segments[|segments| - 1], excludeRun)
  }

  /** The last `limit` messages of the whole lineage. */
  function ListVisible(store: Store, lineage: Lineage, excludeRun: Option<Id>, limit: nat): seq<Message> {
    var records := Collect(store, lineage.segments, excludeRun);
    records[if |records| < limit then 0 else |records| - limit..]
  }

  // ---------------------------------------------------------------- branching

  function OfRun(messages: seq<Message>, run: Id): seq<Message> {
    if messages == [] then []
    else
      var rest := OfRun(messages[..|messages| - 1], run);
      var m := messages[|messages| - 1];
      if m.run == run then rest + [m] else rest
  }

  function OfUsers(messages: seq<Message>): seq<Message> {
    if messages == [] then []
    else
      var rest := OfUsers(messages[..|messages| - 1]);
      var m := messages[|messages| - 1];
      if m.role.User? then rest + [m] else rest
  }

  function MinPosition(messages: seq<Message>): nat
    requires messages != []
  {
    var m := messages[|messages| - 1];
    if |messages| == 1 then m.position
    else
      var least := MinPosition(messages[..|messages| - 1]);
      if m.position < least then m.position else least
  }

  function RewritePosition(runMessages: seq<Message>): int {
    if runMessages == [] then 0 else MinPosition(runMessages) - 1
  }

  function CheckpointPosition(checkpoint: Checkpoint, runMessages: seq<Message>): int {
    if checkpoint.messagePosition.Some? then checkpoint.messagePosition.value
    else if OfUsers(runMessages) != [] then MinPosition(OfUsers(runMessages))
    else RewritePosition(runMessages)
  }

  datatype Target = Target(checkpoint: Option<Checkpoint>, run: Id)

  function ResolveTarget(store: Store, lineage: Lineage, runId: Option<Id>, checkpointId: Option<Id>)
    : Result<Target, Error>
  {
    if checkpointId.None? then
      if runId.None? then Failure(TargetRequired)
      else if runId.value !in store.runs then Failure(RunNotFound(runId.value))
      else Success(Target(None, runId.value))
    else if checkpointId.value !in store.checkpoints then Failure(CheckpointNotFound(checkpointId.value))
    else
      var checkpoint := store.checkpoints[checkpointId.value];
      if checkpoint.status.StepFailed? then Failure(CheckpointNotBranchable(checkpointId.value))
      else if checkpoint.run !in store.runs then Failure(RunNotFound(checkpoint.run))
      else if FindSession(lineage.segments, checkpoint.session).None? then
        Failure(CheckpointNotVisible(checkpointId.value))
      else Success(Target(Some(checkpoint), checkpoint.run))
  }

  predicate Branchable(status: RunStatus) {
    status.Completed? || status.Failed? || status.Canceled?
  }

  function ForkPosition(store: Store, target: Target): nat
    requires target.run in store.runs
  {
    var runMessages := OfRun(MessagesOf(store, store.runs[target.run].session), target.run);
    var position := if target.checkpoint.Some? then CheckpointPosition(target.checkpoint.value, runMessages)
                    else RewritePosition(runMessages);
    if position < 0 then 0 else position
  }

  /** The branch row `createSessionBranch` writes, or why it refuses. */
  function PlanBranch(store: Store, active: Id, runId: Option<Id>, checkpointId: Option<Id>): Result<Branch, Error> {
    match Resolve(store, active)
    case Failure(e) => Failure(e)
    case Success(lineage) =>
      if runId.Some? && checkpointId.Some? then Failure(TargetAmbiguous)
      else
        match ResolveTarget(store, lineage, runId, checkpointId)
        case Failure(e) => Failure(e)
        case Success(target) =>
          if target.run !in store.runs then Failure(RunNotFound(target.run))
          else
            var run := store.runs[target.run];
            if FindSession(lineage.segments, run.session).None? then Failure(RunNotVisible(target.run))
            else if !Branchable(run.status) then Failure(RunNotBranchable(target.run))
            else
              match Resolve(store, run.session)
              case Failure(e) => Failure(e)
              case Success(parent) =>
                var root := if parent.branch.Some? then parent.branch.value.root else run.session;
                Success(Branch(run.session, root, target.run, checkpointId, ForkPosition(store, target)))
  }

  // ---------------------------------------------------------------- steps

  datatype Step =
    | CreateSession(session: Id)
    | ClaimRun(run: Id, session: Id)
    | SetStatus(run: Id, status: RunStatus)
    | Record(checkpoint: Id, row: Checkpoint)
    | Append(session: Id, run: Id, role: Role, text: string)
    | Fork(active: Id, runId: Option<Id>, checkpointId: Option<Id>, child: Id)

  function AddSession(store: Store, session: Id): Store {
    if session in store.sessions then store
    else store.(sessions := store.sessions[session := |store.sessions|])
  }

  function NextPosition(messages: seq<Message>): nat {
    if messages == [] then 1
    else
      var before := NextPosition(messages[..|messages| - 1]);
      var position := messages[|messages| - 1].position;
      if before <= position then position + 1 else before
  }

  /** What the callers of the store guarantee: references exist, a run writes only into its own
      session, ids of children are fresh, and a recorded position is that of an existing message. */
  predicate Allowed(store: Store, step: Step) {
    match step
    case CreateSession(_) => true
    case ClaimRun(run, session) => run !in store.runs && session in store.sessions
    case SetStatus(run, _) => run in store.runs
    case Record(checkpoint, row) =>
      && checkpoint !in store.checkpoints
      && row.run in store.runs && store.runs[row.run].session == row.session
      && (row.messagePosition.Some? ==> row.messagePosition.value <= |MessagesOf(store, row.session)|)
    case Append(session, run, _, _) => run in store.runs && store.runs[run].session == session
    case Fork(_, _, _, child) => child !in store.sessions
  }

  function Apply(store: Store, step: Step): Store
    requires Allowed(store, step)
  {
    match step
    case CreateSession(session) => AddSession(store, session)
    case ClaimRun(run, session) => store.(runs := store.runs[run := Run(session, Running)])
    case SetStatus(run, status) => store.(runs := store.runs[run := store.runs[run].(status := status)])
    case Record(checkpoint, row) => store.(checkpoints := store.checkpoints[checkpoint := row])
    case Append(session, run, role, text) => AppendMessage(store, session, run, role, text)
    case Fork(active, runId, checkpointId, child) =>
      match PlanBranch(store, active, runId, checkpointId)
      case Failure(_) => store
      case Success(branch) => AddSession(store, child).(branches := store.branches[child := branch])
  }

  function AppendMessage(store: Store, session: Id, run: Id, role: Role, text: string): Store {
    var messages := MessagesOf(store, session);
    store.(messages := store.messages[session := messages + [Message(run, role, text, NextPosition(messages))]])
  }

  function RunFrom(store: Store, steps: seq<Step>): Store {
    if steps == [] then store
    else
      var before := RunFrom(store, steps[..|steps| - 1]);
      var step := steps[|steps| - 1];
      if Allowed(before, step) then Apply(before, step) else before
  }
}
