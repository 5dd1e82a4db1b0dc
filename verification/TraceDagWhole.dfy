/**
 The whole trace graph: a forest for every input, faithful to every visible run's log; and, with the
 sections of a drained run, every node listed exactly once.
 */
module TraceDagWhole {
  import opened Wrappers
  import opened TraceDag
  import opened TraceDagForest
  import opened TraceDagRuns
  import Sections = TraceSections
  import Safety = TraceSectionSafety
  import Drain = TraceSectionDrain

  /** What the tables' primary keys give: event numbers rise within a run, an artifact belongs to one
      run and a branch row is listed once. */
  ghost predicate WellKept(input: Input) {
    && (forall run :: run in input.events ==> Increasing(input.events[run]))
    && (forall r1, r2, i, j | r1 in input.artifacts && r2 in input.artifacts
          && 0 <= i < |input.artifacts[r1]| && 0 <= j < |input.artifacts[r2]|
          && input.artifacts[r1][i] == input.artifacts[r2][j] :: r1 == r2 && i == j)
    && BranchesDiffer(input.branches)
  }

  // ---------------------------------------------------------------- user turns

  predicate IsTurn(messages: seq<UserTurn>, id: string) {
    exists i :: 0 <= i < |messages| && messages[i].isUser && messages[i].id == id
  }

  ghost predicate OnlyTurns(g: Graph, messages: seq<UserTurn>) {
    && g.edges == []
    && (forall id :: id in g.nodes ==> id.Message?)
    && (forall id :: Message(id) in g.nodes <==> IsTurn(messages, id))
  }

  lemma TurnAppended(messages: seq<UserTurn>, id: string)
    requires messages != []
    ensures var last := messages[|messages| - 1];
      IsTurn(messages, id) <==> IsTurn(messages[..|messages| - 1], id) || (last.isUser && last.id == id)
  {
    var front := messages[..|messages| - 1];
    if IsTurn(front, id) {
      var i :| 0 <= i < |front| && front[i].isUser && front[i].id == id;
      assert messages[i] == front[i];
    }
  }

  lemma {:induction false} TurnsKeep(all: seq<UserTurn>, checkpoints: seq<Checkpoint>, messages: seq<UserTurn>)
    ensures var g := AddTurns(EMPTY, checkpoints, messages); Sound(all, g) && OnlyTurns(g, messages)
    decreases |messages|
  {
    if messages != [] {
      var front, last := messages[..|messages| - 1], messages[|messages| - 1];
      TurnsKeep(all, checkpoints, front);
      var g := AddTurns(EMPTY, checkpoints, front);
      forall id ensures IsTurn(messages, id) <==> IsTurn(front, id) || (last.isUser && last.id == id) {
        TurnAppended(messages, id);
      }
      if last.isUser { TurnKeeps(all, g, checkpoints, last); }
    }
  }

  lemma TurnKeeps(all: seq<UserTurn>, g: Graph, checkpoints: seq<Checkpoint>, turn: UserTurn)
    requires Sound(all, g)
    ensures Sound(all, AddNode(g, checkpoints, TurnNode(turn)))
  {
    var node := TurnNode(turn);
    if node.id in g.nodes {
      TouchKeepsForest(all, g, checkpoints, node);
    } else {
      PlantKeepsForest(all, g, checkpoints, node);
      PlantKeepsRooted(all, g, checkpoints, node);
    }
  }

  lemma {:induction false} FirstUserIsTurn(messages: seq<UserTurn>, run: string)
    ensures FirstUser(messages, run).Some? ==> IsTurn(messages, FirstUser(messages, run).value)
  {
    if messages != [] && FirstUser(messages, run).Some? {
      FirstUserIsTurn(messages[..|messages| - 1], run);
      TurnAppended(messages, FirstUser(messages, run).value);
    }
  }

  // ---------------------------------------------------------------- runs

  ghost predicate StartLinked(input: Input, g: Graph, run: string) {
    FirstUser(input.messages, run).Some? ==>
      Edge(Message(FirstUser(input.messages, run).value), RunStart(run), StartsRun) in g.edges
  }

  /** The part of the graph that the given runs account for. */
  ghost predicate RunsKept(input: Input, g: Graph, runs: seq<string>) {
    && (forall run :: run in runs ==> RunFacts(g, run, EventsOf(input, run)) && StartLinked(input, g, run))
    && (forall id, run :: id in g.nodes && OfRun(id, run) ==> run in runs)
    && (forall id :: id in g.nodes ==> !id.Artifact? && !id.BranchNode?)
    && (forall id :: Message(id) in g.nodes <==> IsTurn(input.messages, id))
  }

  ghost predicate LastsKept(input: Input, lasts: map<string, NodeId>, runs: seq<string>) {
    forall run :: run in runs ==> run in lasts && lasts[run] == LastOf(run, EventsOf(input, run))
  }

  lemma RunKeeps(input: Input, g: Graph, run: string)
    requires WellKept(input) && Sound(input.messages, g)
    requires forall id :: id in g.nodes ==> !OfRun(id, run)
    requires forall id :: Message(id) in g.nodes <==> IsTurn(input.messages, id)
    ensures var c := AddRun(g, input, run);
      && Sound(input.messages, c.graph) && OnlyRun(g, c.graph, run)
      && RunFacts(c.graph, run, EventsOf(input, run)) && StartLinked(input, c.graph, run)
      && c.last == LastOf(run, EventsOf(input, run))
  {
    FirstUserIsTurn(input.messages, run);
    var start := StartRun(g, input.checkpoints, run, FirstUser(input.messages, run));
    StartIsSound(input.messages, g, input.checkpoints, run);
    StartRecords(input.messages, g, input.checkpoints, run);
    EventsKeep(input.messages, start, input.checkpoints, run, EventsOf(input, run));
    OnlyRunTwice(g, start.graph, AddRun(g, input, run).graph, run);
  }

  lemma RunsStep(input: Input, before: Graph, after: Graph, runs: seq<string>, run: string)
    requires RunsKept(input, before, runs) && run !in runs && OnlyRun(before, after, run)
    requires RunFacts(after, run, EventsOf(input, run)) && StartLinked(input, after, run)
    ensures RunsKept(input, after, runs + [run])
  {
    forall other | other in runs + [run]
      ensures RunFacts(after, other, EventsOf(input, other)) && StartLinked(input, after, other)
    {
      if other != run { OtherRunKept(before, after, run, other, EventsOf(input, other)); }
    }
    forall id, other | id in after.nodes && OfRun(id, other) ensures other in runs + [run] {
      if other != run { assert !OfRun(id, run); }
    }
    forall id ensures Message(id) in after.nodes <==> IsTurn(input.messages, id) { assert !OfRun(Message(id), run); }
  }

  lemma {:induction false} RunsKeep(input: Input, runs: seq<string>)
    requires WellKept(input) && Distinct(runs)
    ensures var (g, lasts) := AddRuns(AddTurns(EMPTY, input.checkpoints, input.messages), input, runs);
      Sound(input.messages, g) && RunsKept(input, g, runs) && LastsKept(input, lasts, runs)
    decreases |runs|
  {
    var turns := AddTurns(EMPTY, input.checkpoints, input.messages);
    if runs == [] {
      TurnsKeep(input.messages, input.checkpoints, input.messages);
    } else {
      var front, run := runs[..|runs| - 1], runs[|runs| - 1];
      assert front + [run] == runs;
      RunsKeep(input, front);
      var before := AddRuns(turns, input, front).0;
      RunKeeps(input, before, run);
      RunsStep(input, before, AddRun(before, input, run).graph, front, run);
    }
  }

  lemma {:induction false} UniqueIsDistinct(names: seq<string>)
    ensures Distinct(Unique(names))
  {
    if names != [] {
      UniqueIsDistinct(names[..|names| - 1]);
      Appended(Unique(names[..|names| - 1]), names[|names| - 1]);
    }
  }

  // ---------------------------------------------------------------- leaves: artifacts and branches

  /** Only leaves are added: artifacts and branches. */
  ghost predicate Leaves(before: Graph, after: Graph) {
    && (forall id :: id in before.nodes ==> id in after.nodes && after.nodes[id] == before.nodes[id])
    && (forall id :: id in after.nodes && id !in before.nodes ==> id.Artifact? || id.BranchNode?)
    && before.edges <= after.edges
    && after.checkpointNode == before.checkpointNode
  }

  lemma LeavesTwice(a: Graph, b: Graph, c: Graph)
    requires Leaves(a, b) && Leaves(b, c)
    ensures Leaves(a, c)
  {
  }

  lemma LeavesKeepRun(before: Graph, after: Graph, run: string, events: seq<Event>)
    requires Leaves(before, after) && RunFacts(before, run, events)
    ensures RunFacts(after, run, events)
  {
    LinkedGrows(before.edges, after.edges, run, events);
    forall id | OfRun(id, run) ensures EntryOf(after, id) == Expected(events, id) {
      assert EntryOf(before, id) == Expected(events, id);
    }
  }

  /** The artifact's node and the edge that leads to it. */
  ghost predicate ArtifactHangs(input: Input, g: Graph, run: string, id: string) {
    && Artifact(id) in g.nodes && g.nodes[Artifact(id)].run == run
    && Edge(LastOf(run, EventsOf(input, run)), Artifact(id), ProducesArtifact) in g.edges
  }

  lemma ArtifactKeeps(input: Input, g: Graph, run: string, id: string)
    requires Sound(input.messages, g) && RunFacts(g, run, EventsOf(input, run)) && Artifact(id) !in g.nodes
    ensures var after := WithArtifact(input, g, run, id);
      && Sound(input.messages, after) && Leaves(g, after) && ArtifactHangs(input, after, run, id)
      && (forall other :: other in after.nodes <==> other in g.nodes || other == Artifact(id))
  {
    var node := Node(Artifact(id), run, None, None, "", None);
    var last := LastOf(run, EventsOf(input, run));
    LastOfExists(g, run, EventsOf(input, run));
    HangAdds(input.messages, g, input.checkpoints, last, node, ProducesArtifact);
    HangIsSound(input.messages, g, input.checkpoints, run, last, node, ProducesArtifact);
    HungLeaf(input.messages, g, input.checkpoints, last, node, ProducesArtifact);
  }

  /** A node without event number and call takes no checkpoint, so hanging it only adds a leaf. */
  lemma HungLeaf(messages: seq<UserTurn>, g: Graph, checkpoints: seq<Checkpoint>, parent: NodeId, node: Node,
                 kind: EdgeKind)
    requires Forest(messages, g) && parent in g.nodes && node.id !in g.nodes
    requires (node.id.Artifact? || node.id.BranchNode?) && node.seqNo.None? && node.call.None?
    ensures var after := Hang(g, checkpoints, parent, node, kind);
      Leaves(g, after) && after.nodes == g.nodes[node.id := node]
      && after.edges == g.edges + [Edge(parent, node.id, kind)]
  {
    HangAdds(messages, g, checkpoints, parent, node, kind);
  }

  ghost predicate ArtifactsHang(input: Input, g: Graph, run: string, artifacts: seq<string>) {
    artifacts == [] ||
    (ArtifactHangs(input, g, run, artifacts[|artifacts| - 1])
     && ArtifactsHang(input, g, run, artifacts[..|artifacts| - 1]))
  }

  lemma {:induction false} ArtifactsHangOn(input: Input, before: Graph, after: Graph, run: string,
                                           artifacts: seq<string>)
    requires ArtifactsHang(input, before, run, artifacts) && Leaves(before, after)
    ensures ArtifactsHang(input, after, run, artifacts)
    decreases |artifacts|
  {
    if artifacts != [] { ArtifactsHangOn(input, before, after, run, artifacts[..|artifacts| - 1]); }
  }

  ghost predicate ArtifactsAdded(input: Input, g: Graph, after: Graph, run: string, artifacts: seq<string>) {
    && Leaves(g, after) && ArtifactsHang(input, after, run, artifacts)
    && (forall id :: id in after.nodes <==> id in g.nodes || (id.Artifact? && id.id in artifacts))
  }

  function WithArtifact(input: Input, g: Graph, run: string, id: string): Graph {
    Hang(g, input.checkpoints, LastOf(run, EventsOf(input, run)),
         Node(Artifact(id), run, None, None, "", None), ProducesArtifact)
  }

  lemma {:induction false} ArtifactsKeep(input: Input, g: Graph, run: string, artifacts: seq<string>)
    requires Sound(input.messages, g) && RunFacts(g, run, EventsOf(input, run))
    requires Distinct(artifacts) && forall id :: id in artifacts ==> Artifact(id) !in g.nodes
    ensures var after := AddArtifacts(g, input.checkpoints, run, artifacts, Some(LastOf(run, EventsOf(input, run))));
      Sound(input.messages, after) && ArtifactsAdded(input, g, after, run, artifacts)
    decreases |artifacts|
  {
    if artifacts != [] {
      var front, last := artifacts[..|artifacts| - 1], artifacts[|artifacts| - 1];
      assert artifacts == front + [last];
      ArtifactsKeep(input, g, run, front);
      var before := AddArtifacts(g, input.checkpoints, run, front, Some(LastOf(run, EventsOf(input, run))));
      LeavesKeepRun(g, before, run, EventsOf(input, run));
      ArtifactKeeps(input, before, run, last);
      ArtifactAdded(input, g, before, WithArtifact(input, before, run, last), run, front, last);
    }
  }

  lemma ArtifactAdded(input: Input, g: Graph, before: Graph, after: Graph, run: string, front: seq<string>,
                      last: string)
    requires ArtifactsAdded(input, g, before, run, front)
    requires Leaves(before, after) && ArtifactHangs(input, after, run, last)
    requires forall id :: id in after.nodes <==> id in before.nodes || id == Artifact(last)
    ensures ArtifactsAdded(input, g, after, run, front + [last])
  {
    LeavesTwice(g, before, after);
    ArtifactsHangOn(input, before, after, run, front);
    assert (front + [last])[..|front|] == front;
  }

  lemma DistinctByIndex<T(!new)>(xs: seq<T>)
    requires forall i, j | 0 <= i < |xs| && 0 <= j < |xs| && xs[i] == xs[j] :: i == j
    ensures Distinct(xs)
  {
    if xs != [] {
      var front := xs[..|xs| - 1];
      assert forall i, j | 0 <= i < |front| && 0 <= j < |front| && front[i] == front[j] :: xs[i] == xs[j];
      DistinctByIndex(front);
      assert forall i | 0 <= i < |front| :: front[i] == xs[i];
    }
  }

  lemma OneOwner(input: Input, r1: string, r2: string, id: string)
    requires WellKept(input) && id in ArtifactsOf(input, r1) && id in ArtifactsOf(input, r2)
    ensures r1 == r2
  {
    var i :| 0 <= i < |input.artifacts[r1]| && input.artifacts[r1][i] == id;
    var j :| 0 <= j < |input.artifacts[r2]| && input.artifacts[r2][j] == id;
  }

  /** The graph after the artifacts of the given runs. */
  ghost predicate ArtifactsKept(input: Input, base: Graph, g: Graph, runs: seq<string>) {
    && Sound(input.messages, g) && Leaves(base, g)
    && (forall run :: run in runs ==> ArtifactsHang(input, g, run, ArtifactsOf(input, run)))
    && (forall id :: id in g.nodes && id !in base.nodes ==>
          id.Artifact? && exists run :: run in runs && id.id in ArtifactsOf(input, run))
  }

  /** Artifacts of another run are not there yet. */
  lemma ArtifactsAreNew(input: Input, base: Graph, before: Graph, runs: seq<string>, run: string)
    requires WellKept(input) && ArtifactsKept(input, base, before, runs) && run !in runs
    requires forall id :: id in base.nodes ==> !id.Artifact?
    ensures forall id :: id in ArtifactsOf(input, run) ==> Artifact(id) !in before.nodes
    ensures Distinct(ArtifactsOf(input, run))
  {
    DistinctByIndex(ArtifactsOf(input, run));
    forall id | id in ArtifactsOf(input, run) ensures Artifact(id) !in before.nodes {
      if Artifact(id) in before.nodes {
        var other :| other in runs && id in ArtifactsOf(input, other);
        OneOwner(input, run, other, id);
      }
    }
  }

  lemma AllHangOn(input: Input, before: Graph, after: Graph, runs: seq<string>, run: string)
    requires forall r :: r in runs ==> ArtifactsHang(input, before, r, ArtifactsOf(input, r))
    requires Leaves(before, after) && ArtifactsHang(input, after, run, ArtifactsOf(input, run))
    ensures forall r :: r in runs + [run] ==> ArtifactsHang(input, after, r, ArtifactsOf(input, r))
  {
    forall r | r in runs ensures ArtifactsHang(input, after, r, ArtifactsOf(input, r)) {
      ArtifactsHangOn(input, before, after, r, ArtifactsOf(input, r));
    }
  }

  lemma ArtifactsStep(input: Input, base: Graph, before: Graph, runs: seq<string>, run: string)
    requires WellKept(input) && ArtifactsKept(input, base, before, runs) && run !in runs
    requires RunFacts(base, run, EventsOf(input, run)) && forall id :: id in base.nodes ==> !id.Artifact?
    ensures ArtifactsKept(input, base, AddArtifacts(before, input.checkpoints, run, ArtifactsOf(input, run),
                                                    Some(LastOf(run, EventsOf(input, run)))), runs + [run])
  {
    var artifacts := ArtifactsOf(input, run);
    var after := AddArtifacts(before, input.checkpoints, run, artifacts, Some(LastOf(run, EventsOf(input, run))));
    LeavesKeepRun(base, before, run, EventsOf(input, run));
    ArtifactsAreNew(input, base, before, runs, run);
    ArtifactsKeep(input, before, run, artifacts);
    LeavesTwice(base, before, after);
    AllHangOn(input, before, after, runs, run);
    NewArtifactsOwned(input, base, before, after, runs, run);
  }

  lemma NewArtifactsOwned(input: Input, base: Graph, before: Graph, after: Graph, runs: seq<string>, run: string)
    requires forall id :: id in before.nodes && id !in base.nodes ==>
               id.Artifact? && exists r :: r in runs && id.id in ArtifactsOf(input, r)
    requires forall id :: id in after.nodes <==>
               id in before.nodes || (id.Artifact? && id.id in ArtifactsOf(input, run))
    ensures forall id :: id in after.nodes && id !in base.nodes ==>
              id.Artifact? && exists r :: r in runs + [run] && id.id in ArtifactsOf(input, r)
  {
    forall id | id in after.nodes && id !in base.nodes
      ensures id.Artifact? && exists r :: r in runs + [run] && id.id in ArtifactsOf(input, r)
    {
      if id in before.nodes {
        var r :| r in runs && id.id in ArtifactsOf(input, r);
        assert r in runs + [run];
      } else {
        assert run in runs + [run];
      }
    }
  }

  lemma {:induction false} AllArtifactsKeep(input: Input, base: Graph, lasts: map<string, NodeId>, runs: seq<string>)
    requires WellKept(input) && Sound(input.messages, base) && Distinct(runs)
    requires forall run :: run in runs ==> RunFacts(base, run, EventsOf(input, run))
    requires LastsKept(input, lasts, runs) && forall id :: id in base.nodes ==> !id.Artifact?
    ensures ArtifactsKept(input, base, AddAllArtifacts(base, input, runs, lasts), runs)
    decreases |runs|
  {
    if runs != [] {
      var front, run := runs[..|runs| - 1], runs[|runs| - 1];
      assert front + [run] == runs;
      AllArtifactsKeep(input, base, lasts, front);
      ArtifactsStep(input, base, AddAllArtifacts(base, input, front, lasts), front, run);
    }
  }

  // ---------------------------------------------------------------- branches

  /** A branch forked from a checkpoint that is in the graph hangs below the checkpoint's node. */
  ghost predicate BranchHangs(g: Graph, branch: Branch) {
    var forked := branch.forkCheckpoint.Some? && branch.forkCheckpoint.value in g.checkpointNode;
    && (BranchNode(branch.id) in g.nodes <==> forked)
    && (forked ==> Edge(g.checkpointNode[branch.forkCheckpoint.value], BranchNode(branch.id), BranchesFrom) in g.edges)
  }

  lemma BranchKeeps(messages: seq<UserTurn>, g: Graph, checkpoints: seq<Checkpoint>, branch: Branch)
    requires Sound(messages, g) && BranchNode(branch.id) !in g.nodes
    ensures var after := AddBranch(g, checkpoints, branch);
      && Sound(messages, after) && Leaves(g, after) && BranchHangs(after, branch)
      && (forall id :: id in after.nodes && id !in g.nodes ==> id == BranchNode(branch.id))
  {
    if branch.forkCheckpoint.Some? && branch.forkCheckpoint.value in g.checkpointNode {
      var source := g.checkpointNode[branch.forkCheckpoint.value];
      var node := Node(BranchNode(branch.id), branch.forkRun, None, None, "", None);
      HungLeaf(messages, g, checkpoints, source, node, BranchesFrom);
      HangKeepsForest(messages, g, checkpoints, source, node, BranchesFrom);
      HangKeepsRooted(messages, g, checkpoints, source, node, BranchesFrom);
    }
  }

  ghost predicate BranchesHang(g: Graph, branches: seq<Branch>) {
    branches == [] || (BranchHangs(g, branches[|branches| - 1]) && BranchesHang(g, branches[..|branches| - 1]))
  }

  predicate Lists(branches: seq<Branch>, id: string) {
    branches != [] && (branches[|branches| - 1].id == id || Lists(branches[..|branches| - 1], id))
  }

  lemma {:induction false} BranchesHangOn(before: Graph, after: Graph, branches: seq<Branch>, added: string)
    requires BranchesHang(before, branches) && Leaves(before, after) && !Lists(branches, added)
    requires forall id :: id in after.nodes && id !in before.nodes ==> id == BranchNode(added)
    ensures BranchesHang(after, branches)
    decreases |branches|
  {
    if branches != [] { BranchesHangOn(before, after, branches[..|branches| - 1], added); }
  }

  /** No branch row is listed twice. */
  ghost predicate BranchesDiffer(branches: seq<Branch>) {
    branches == [] ||
    (!Lists(branches[..|branches| - 1], branches[|branches| - 1].id) && BranchesDiffer(branches[..|branches| - 1]))
  }

  lemma {:induction false} BranchesKeep(messages: seq<UserTurn>, base: Graph, checkpoints: seq<Checkpoint>,
                                        branches: seq<Branch>)
    requires Sound(messages, base) && (forall id :: id in base.nodes ==> !id.BranchNode?)
    requires BranchesDiffer(branches)
    ensures var g := AddBranches(base, checkpoints, branches);
      && Sound(messages, g) && Leaves(base, g) && BranchesHang(g, branches)
      && (forall id :: id in g.nodes && id !in base.nodes ==> id.BranchNode? && Lists(branches, id.id))
    decreases |branches|
  {
    if branches != [] {
      var front, last := branches[..|branches| - 1], branches[|branches| - 1];
      BranchesKeep(messages, base, checkpoints, front);
      var before := AddBranches(base, checkpoints, front);
      var after := AddBranch(before, checkpoints, last);
      BranchKeeps(messages, before, checkpoints, last);
      LeavesTwice(base, before, after);
      BranchesHangOn(before, after, front, last.id);
    }
  }

  // ---------------------------------------------------------------- the whole graph

  /** What the finished graph is known to be, run by run. */
  ghost predicate RunShown(input: Input, g: Graph, run: string) {
    && RunFacts(g, run, EventsOf(input, run)) && StartLinked(input, g, run)
    && ArtifactsHang(input, g, run, ArtifactsOf(input, run))
  }

  lemma RunShownAtEnd(input: Input, logged: Graph, full: Graph, g: Graph, run: string)
    requires Leaves(logged, full) && Leaves(full, g)
    requires RunFacts(logged, run, EventsOf(input, run)) && StartLinked(input, logged, run)
    requires ArtifactsHang(input, full, run, ArtifactsOf(input, run))
    ensures RunShown(input, g, run)
  {
    LeavesTwice(logged, full, g);
    LeavesKeepRun(logged, g, run, EventsOf(input, run));
    ArtifactsHangOn(input, full, g, run, ArtifactsOf(input, run));
  }

  /** Every visible run's log, start and artifacts are in the graph as its rows say, every forked branch
      hangs below the node its checkpoint was attached to, and there is nothing else. */
  lemma BuildShows(input: Input)
    requires WellKept(input)
    ensures var g, runs := Build(input), VisibleRuns(input);
      && Sound(input.messages, g) && BranchesHang(g, input.branches)
      && (forall run :: run in runs ==> RunShown(input, g, run))
      && (forall id, run :: id in g.nodes && OfRun(id, run) ==> run in runs)
      && (forall id :: Artifact(id) in g.nodes ==> exists run :: run in runs && id in ArtifactsOf(input, run))
      && (forall id :: BranchNode(id) in g.nodes ==> Lists(input.branches, id))
      && (forall id :: Message(id) in g.nodes <==> IsTurn(input.messages, id))
  {
    var runs := VisibleRuns(input);
    LogsShow(input);
    var (logged, lasts) := Logged(input);
    AllArtifactsKeep(input, logged, lasts, runs);
    var full := AddAllArtifacts(logged, input, runs, lasts);
    BranchesKeep(input.messages, full, input.checkpoints, input.branches);
    FinishedShows(input, runs, logged, full, Build(input));
  }

  /** The graph before artifacts and branches. */
  function Logged(input: Input): (Graph, map<string, NodeId>) {
    AddRuns(AddTurns(EMPTY, input.checkpoints, input.messages), input, VisibleRuns(input))
  }

  lemma LogsShow(input: Input)
    requires WellKept(input)
    ensures var (logged, lasts) := Logged(input); var runs := VisibleRuns(input);
      Sound(input.messages, logged) && RunsKept(input, logged, runs) && LastsKept(input, lasts, runs) && Distinct(runs)
  {
    UniqueIsDistinct(seq(|input.messages|, i requires 0 <= i < |input.messages| => input.messages[i].run)
                     + if input.forkRun.Some? then [input.forkRun.value] else []);
    RunsKeep(input, VisibleRuns(input));
  }

  lemma FinishedShows(input: Input, runs: seq<string>, logged: Graph, full: Graph, g: Graph)
    requires RunsKept(input, logged, runs) && ArtifactsKept(input, logged, full, runs) && Leaves(full, g)
    requires forall id :: id in g.nodes && id !in full.nodes ==> id.BranchNode?
    ensures forall run :: run in runs ==> RunShown(input, g, run)
    ensures forall id, run :: id in g.nodes && OfRun(id, run) ==> run in runs
    ensures forall id :: Artifact(id) in g.nodes ==> exists run :: run in runs && id in ArtifactsOf(input, run)
    ensures forall id :: Message(id) in g.nodes <==> IsTurn(input.messages, id)
  {
    forall run | run in runs ensures RunShown(input, g, run) { RunShownAtEnd(input, logged, full, g, run); }
    NothingElse(input, runs, logged, full, g);
  }

  lemma NothingElse(input: Input, runs: seq<string>, logged: Graph, full: Graph, g: Graph)
    requires forall id, run :: id in logged.nodes && OfRun(id, run) ==> run in runs
    requires forall id :: id in logged.nodes ==> !id.Artifact?
    requires forall id :: Message(id) in logged.nodes <==> IsTurn(input.messages, id)
    requires Leaves(logged, full) && Leaves(full, g)
    requires forall id :: id in full.nodes && id !in logged.nodes ==>
               id.Artifact? && exists run :: run in runs && id.id in ArtifactsOf(input, run)
    requires forall id :: id in g.nodes && id !in full.nodes ==> id.BranchNode?
    ensures forall id, run :: id in g.nodes && OfRun(id, run) ==> run in runs
    ensures forall id :: Artifact(id) in g.nodes ==> exists run :: run in runs && id in ArtifactsOf(input, run)
    ensures forall id :: Message(id) in g.nodes <==> IsTurn(input.messages, id)
  {
    forall id | Artifact(id) in g.nodes ensures exists run :: run in runs && id in ArtifactsOf(input, run) {
      assert Artifact(id) in full.nodes && Artifact(id) !in logged.nodes;
    }
  }

  /** Do two nodes stand in creation order? */
  ghost predicate CreatedBefore(order: seq<NodeId>, a: NodeId, b: NodeId) {
    exists i, j :: 0 <= i < j < |order| && order[i] == a && order[j] == b
  }

  lemma {:induction false} DistinctMeans(order: seq<NodeId>, i: nat, j: nat)
    requires Distinct(order) && i < j < |order|
    ensures order[i] != order[j]
    decreases |order|
  {
    if j < |order| - 1 {
      DistinctMeans(order[..|order| - 1], i, j);
    } else {
      assert order[..j][i] == order[i];
    }
  }

  lemma ForestMeans(messages: seq<UserTurn>, g: Graph)
    requires Forest(messages, g)
    ensures forall i, j | 0 <= i < j < |g.order| :: g.order[i] != g.order[j]
    ensures forall k | 0 <= k < |g.edges| :: CreatedBefore(g.order, g.edges[k].source, g.edges[k].target)
    ensures forall i, j | 0 <= i < j < |g.edges| :: g.edges[i].target != g.edges[j].target
    ensures forall id | id in g.nodes ::
              IsRoot(messages, id) <==> (forall k | 0 <= k < |g.edges| :: g.edges[k].target != id)
  {
    forall i, j | 0 <= i < j < |g.order| ensures g.order[i] != g.order[j] { DistinctMeans(g.order, i, j); }
    forall k | 0 <= k < |g.edges| ensures CreatedBefore(g.order, g.edges[k].source, g.edges[k].target) {
      ForwardMeans(g.order, g.edges, k);
    }
    forall i, j | 0 <= i < j < |g.edges| ensures g.edges[i].target != g.edges[j].target {
      SingleParentsMeans(g.edges, i, j);
    }
    forall id | id in g.nodes
      ensures IsRoot(messages, id) <==> (forall k | 0 <= k < |g.edges| :: g.edges[k].target != id)
    {
      HasParentMeans(g.edges, id);
    }
  }

  /** Spelled out: the order lists every node once, every edge joins an earlier node to a later one,
      no two edges share a target, the nodes without an edge to them are the user turns and the starts
      of runs no user turn began, and the start of its run leads to every context, tool, terminal and
      artifact node. */
  lemma TraceGraphIsForest(input: Input)
    requires WellKept(input)
    ensures var g := Build(input);
      && (forall id :: id in g.order <==> id in g.nodes)
      && (forall i, j | 0 <= i < j < |g.order| :: g.order[i] != g.order[j])
      && (forall k | 0 <= k < |g.edges| :: CreatedBefore(g.order, g.edges[k].source, g.edges[k].target))
      && (forall i, j | 0 <= i < j < |g.edges| :: g.edges[i].target != g.edges[j].target)
      && (forall id | id in g.nodes ::
            IsRoot(input.messages, id) <==> (forall k | 0 <= k < |g.edges| :: g.edges[k].target != id))
      && (forall id | id in g.nodes && (id.Context? || id.Tool? || id.Terminal? || id.Artifact?) ::
            RunStart(g.nodes[id].run) in g.nodes && Reaches(g.edges, RunStart(g.nodes[id].run), id))
  {
    BuildShows(input);
    ForestMeans(input.messages, Build(input));
  }

  /** A node is there exactly when the run's log calls for it, with the number and text the log gives. */
  lemma TraceGraphFollowsLog(input: Input, run: string, id: NodeId)
    requires WellKept(input) && OfRun(id, run)
    ensures EntryOf(Build(input), id) == if run in VisibleRuns(input) then Expected(EventsOf(input, run), id) else None
  {
    BuildShows(input);
    if run in VisibleRuns(input) { assert RunShown(input, Build(input), run); }
  }

  // ---------------------------------------------------------------- sections

  lemma {:induction false} NodesInLists(g: Graph, order: seq<NodeId>, run: string, start: nat, end: nat, id: NodeId)
    ensures id in NodesIn(g, order, run, start, end) <==>
      && id in order && id in g.nodes && run != "" && g.nodes[id].run == run
      && g.nodes[id].seqNo.Some? && start <= g.nodes[id].seqNo.value <= end
    decreases |order|
  {
    if order != [] {
      assert order == order[..|order| - 1] + [order[|order| - 1]];
      NodesInLists(g, order[..|order| - 1], run, start, end, id);
    }
  }

  lemma {:induction false} NodesInDistinct(g: Graph, order: seq<NodeId>, run: string, start: nat, end: nat)
    requires Distinct(order)
    ensures Distinct(NodesIn(g, order, run, start, end))
    decreases |order|
  {
    if order != [] {
      var front, last := order[..|order| - 1], order[|order| - 1];
      NodesInDistinct(g, front, run, start, end);
      NodesInLists(g, front, run, start, end, last);
      Appended(NodesIn(g, front, run, start, end), last);
    }
  }

  /** Once the worker of a run has drained after its terminal event at T, every node of that run with an
      event number in 1..T is listed by exactly one section, and there only once. */
  lemma EveryNodeInOneSection(input: Input, run: string, id: NodeId, steps: seq<Sections.Step>)
    requires WellKept(input) && id in Build(input).nodes && Build(input).nodes[id].run == run != ""
    requires Drain.UndisturbedSinceTerminal(steps) && Drain.Drained(Sections.Run(steps))
    requires Build(input).nodes[id].seqNo.Some?
    requires 1 <= Build(input).nodes[id].seqNo.value <= Drain.LastTerminal(Sections.Run(steps).log)
    ensures var g, rows := Build(input), Sections.Run(steps).sections;
      && (exists i :: 0 <= i < |rows| && id in NodesIn(g, g.order, run, rows[i].start, rows[i].end))
      && (forall i, j | 0 <= i < j < |rows| ::
            !(id in NodesIn(g, g.order, run, rows[i].start, rows[i].end)
              && id in NodesIn(g, g.order, run, rows[j].start, rows[j].end)))
      && (forall i | 0 <= i < |rows| :: Distinct(NodesIn(g, g.order, run, rows[i].start, rows[i].end)))
  {
    BuildShows(input);
    var g, rows := Build(input), Sections.Run(steps).sections;
    var seqNo := g.nodes[id].seqNo.value;
    Drain.EveryEventHasOneSection(steps, seqNo);
    forall i | 0 <= i < |rows|
      ensures id in NodesIn(g, g.order, run, rows[i].start, rows[i].end) <==> rows[i].start <= seqNo <= rows[i].end
    {
      NodesInLists(g, g.order, run, rows[i].start, rows[i].end, id);
    }
    forall i | 0 <= i < |rows| ensures Distinct(NodesIn(g, g.order, run, rows[i].start, rows[i].end)) {
      NodesInDistinct(g, g.order, run, rows[i].start, rows[i].end);
    }
  }
}
