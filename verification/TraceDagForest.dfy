/**
 The trace graph is a forest: edges run from earlier to later nodes, no node has two incoming edges,
 and exactly the user turns and the runs without one are roots.
 */
module TraceDagForest {
  import opened TraceDag

  ghost predicate Distinct<T(!new)>(xs: seq<T>) {
    xs == [] || (xs[|xs| - 1] !in xs[..|xs| - 1] && Distinct(xs[..|xs| - 1]))
  }

  /** `a` was created before `b`. */
  ghost predicate Before(order: seq<NodeId>, a: NodeId, b: NodeId) {
    order != [] &&
    var front := order[..|order| - 1];
    (order[|order| - 1] == b && a in front) || Before(front, a, b)
  }

  ghost predicate HasParent(edges: seq<Edge>, id: NodeId) {
    edges != [] && (edges[|edges| - 1].target == id || HasParent(edges[..|edges| - 1], id))
  }

  ghost predicate SingleParents(edges: seq<Edge>) {
    edges == [] ||
    (!HasParent(edges[..|edges| - 1], edges[|edges| - 1].target) && SingleParents(edges[..|edges| - 1]))
  }

  ghost predicate Forward(order: seq<NodeId>, edges: seq<Edge>) {
    edges == [] ||
    (Before(order, edges[|edges| - 1].source, edges[|edges| - 1].target) && Forward(order, edges[..|edges| - 1]))
  }

  /** User turns are roots, and so are the starts of runs that no visible user turn began. */
  predicate IsRoot(messages: seq<UserTurn>, id: NodeId) {
    id.Message? || (id.RunStart? && FirstUser(messages, id.run).None?)
  }

  ghost predicate Forest(messages: seq<UserTurn>, g: Graph) {
    && Distinct(g.order)
    && (forall id :: id in g.order <==> id in g.nodes)
    && (forall id :: id in g.nodes ==> g.nodes[id].id == id)
    && Forward(g.order, g.edges)
    && SingleParents(g.edges)
    && (forall id :: id in g.nodes ==> (HasParent(g.edges, id) <==> !IsRoot(messages, id)))
    && (forall id :: HasParent(g.edges, id) ==> id in g.nodes)
    && (forall c :: c in g.checkpointNode ==> g.checkpointNode[c] in g.nodes)
  }

  // ---------------------------------------------------------------- one more node

  lemma Appended<T>(xs: seq<T>, x: T)
    ensures (xs + [x])[..|xs + [x]| - 1] == xs && (xs + [x])[|xs + [x]| - 1] == x && xs + [x] != []
  {
  }

  lemma {:induction false} ForwardGrows(order: seq<NodeId>, id: NodeId, edges: seq<Edge>)
    requires Forward(order, edges)
    ensures Forward(order + [id], edges)
  {
    if edges != [] {
      Appended(order, id);
      ForwardGrows(order, id, edges[..|edges| - 1]);
    }
  }

  /** Touching a node that is there keeps the shape of the graph. */
  lemma TouchKeepsForest(messages: seq<UserTurn>, g: Graph, checkpoints: seq<Checkpoint>, node: Node)
    requires Forest(messages, g) && node.id in g.nodes
    ensures Forest(messages, AddNode(g, checkpoints, node))
    ensures AddNode(g, checkpoints, node).nodes.Keys == g.nodes.Keys
  {
  }

  /** A new root. */
  lemma PlantKeepsForest(messages: seq<UserTurn>, g: Graph, checkpoints: seq<Checkpoint>, node: Node)
    requires Forest(messages, g) && node.id !in g.nodes && IsRoot(messages, node.id)
    ensures Forest(messages, AddNode(g, checkpoints, node))
  {
    var after := AddNode(g, checkpoints, node);
    Appended(g.order, node.id);
    ForwardGrows(g.order, node.id, g.edges);
    assert after.order == g.order + [node.id];
  }

  function Hang(g: Graph, checkpoints: seq<Checkpoint>, parent: NodeId, node: Node, kind: EdgeKind): Graph {
    AddEdge(AddNode(g, checkpoints, node), Edge(parent, node.id, kind))
  }

  lemma {:induction false} EdgeMakesParent(edges: seq<Edge>, edge: Edge)
    requires edge in edges
    ensures HasParent(edges, edge.target)
  {
    if edges[|edges| - 1] != edge { EdgeMakesParent(edges[..|edges| - 1], edge); }
  }

  /** What hanging a new node below an existing one changes. */
  lemma HangAdds(messages: seq<UserTurn>, g: Graph, checkpoints: seq<Checkpoint>, parent: NodeId, node: Node,
                 kind: EdgeKind)
    requires Forest(messages, g) && parent in g.nodes && node.id !in g.nodes
    ensures var after := Hang(g, checkpoints, parent, node, kind);
      && after.order == g.order + [node.id]
      && after.edges == g.edges + [Edge(parent, node.id, kind)]
      && after.nodes == g.nodes[node.id := Attached(node, ResolveCheckpoint(node, checkpoints))]
  {
    var edge := Edge(parent, node.id, kind);
    if edge in g.edges { EdgeMakesParent(g.edges, edge); }
  }

  lemma NewEdge(order: seq<NodeId>, edges: seq<Edge>, edge: Edge)
    requires Forward(order, edges) && SingleParents(edges)
    requires edge.source in order && !HasParent(edges, edge.target)
    ensures Forward(order + [edge.target], edges + [edge]) && SingleParents(edges + [edge])
    ensures forall id :: HasParent(edges + [edge], id) <==> id == edge.target || HasParent(edges, id)
  {
    Appended(order, edge.target);
    Appended(edges, edge);
    ForwardGrows(order, edge.target, edges);
  }

  lemma HangKeepsForest(messages: seq<UserTurn>, g: Graph, checkpoints: seq<Checkpoint>, parent: NodeId, node: Node,
                        kind: EdgeKind)
    requires Forest(messages, g) && parent in g.nodes && node.id !in g.nodes && !IsRoot(messages, node.id)
    ensures Forest(messages, Hang(g, checkpoints, parent, node, kind))
  {
    HangAdds(messages, g, checkpoints, parent, node, kind);
    Appended(g.order, node.id);
    NewEdge(g.order, g.edges, Edge(parent, node.id, kind));
    assert forall c :: c in Hang(g, checkpoints, parent, node, kind).checkpointNode ==>
             (c in g.checkpointNode || Hang(g, checkpoints, parent, node, kind).checkpointNode[c] == node.id);
  }

  // ---------------------------------------------------------------- reaching

  /** A path along edges. */
  ghost predicate IsPath(edges: seq<Edge>, path: seq<NodeId>) {
    path != [] && (|path| == 1 ||
      (IsPath(edges, path[..|path| - 1])
       && exists edge :: edge in edges && edge.source == path[|path| - 2] && edge.target == path[|path| - 1]))
  }

  ghost predicate Reaches(edges: seq<Edge>, a: NodeId, b: NodeId) {
    exists path :: IsPath(edges, path) && path[0] == a && path[|path| - 1] == b
  }

  lemma ReachesItself(edges: seq<Edge>, a: NodeId)
    ensures Reaches(edges, a, a)
  {
    assert IsPath(edges, [a]);
  }

  lemma {:induction false} PathGrows(edges: seq<Edge>, more: seq<Edge>, path: seq<NodeId>)
    requires IsPath(edges, path)
    ensures IsPath(edges + more, path)
    decreases |path|
  {
    if |path| > 1 {
      PathGrows(edges, more, path[..|path| - 1]);
      var edge :| edge in edges && edge.source == path[|path| - 2] && edge.target == path[|path| - 1];
      assert edge in edges + more;
    }
  }

  lemma ReachesGrows(edges: seq<Edge>, more: seq<Edge>, a: NodeId, b: NodeId)
    requires Reaches(edges, a, b)
    ensures Reaches(edges + more, a, b)
  {
    var path :| IsPath(edges, path) && path[0] == a && path[|path| - 1] == b;
    PathGrows(edges, more, path);
  }

  lemma ReachesFurther(edges: seq<Edge>, a: NodeId, edge: Edge)
    requires Reaches(edges, a, edge.source)
    ensures Reaches(edges + [edge], a, edge.target)
  {
    var path :| IsPath(edges, path) && path[0] == a && path[|path| - 1] == edge.source;
    PathGrows(edges, [edge], path);
    var longer := path + [edge.target];
    assert longer[..|longer| - 1] == path;
    assert edge in edges + [edge];
    assert IsPath(edges + [edge], longer);
  }

  /** Nodes that belong to a run's own trace. */
  predicate OfRun(id: NodeId, run: string) {
    match id
    case RunStart(r) => r == run
    case Context(r, _) => r == run
    case Terminal(r, _) => r == run
    case Tool(r, _) => r == run
    case _ => false
  }

  /** The start node of its run, or of the run an artifact records, leads to every such node. */
  ghost predicate Rooted(g: Graph) {
    forall id :: id in g.nodes && !id.Message? && !id.BranchNode? ==>
      && (OfRun(id, g.nodes[id].run) || id.Artifact?)
      && RunStart(g.nodes[id].run) in g.nodes
      && Reaches(g.edges, RunStart(g.nodes[id].run), id)
  }

  lemma TouchKeepsRooted(messages: seq<UserTurn>, g: Graph, checkpoints: seq<Checkpoint>, node: Node)
    requires Forest(messages, g) && Rooted(g) && node.id in g.nodes && node.run == g.nodes[node.id].run
    ensures Rooted(AddNode(g, checkpoints, node))
  {
  }

  lemma HangKeepsRooted(messages: seq<UserTurn>, g: Graph, checkpoints: seq<Checkpoint>, parent: NodeId, node: Node,
                        kind: EdgeKind)
    requires Forest(messages, g) && Rooted(g) && parent in g.nodes && node.id !in g.nodes
    requires OfRun(node.id, node.run) || node.id.Artifact? || node.id.BranchNode?
    requires !node.id.BranchNode? && !node.id.RunStart? ==>
               RunStart(node.run) in g.nodes && Reaches(g.edges, RunStart(node.run), parent)
    ensures Rooted(Hang(g, checkpoints, parent, node, kind))
  {
    var edge := Edge(parent, node.id, kind);
    var after := Hang(g, checkpoints, parent, node, kind);
    HangAdds(messages, g, checkpoints, parent, node, kind);
    forall id | id in after.nodes && !id.Message? && !id.BranchNode?
      ensures (OfRun(id, after.nodes[id].run) || id.Artifact?) && RunStart(after.nodes[id].run) in after.nodes
              && Reaches(after.edges, RunStart(after.nodes[id].run), id)
    {
      if id != node.id {
        ReachesGrows(g.edges, [edge], RunStart(g.nodes[id].run), id);
      } else if id.RunStart? {
        ReachesItself(after.edges, id);
      } else {
        ReachesFurther(g.edges, RunStart(node.run), edge);
      }
    }
  }

  lemma PlantKeepsRooted(messages: seq<UserTurn>, g: Graph, checkpoints: seq<Checkpoint>, node: Node)
    requires Forest(messages, g) && Rooted(g) && node.id !in g.nodes
    requires node.id.Message? || node.id == RunStart(node.run)
    ensures Rooted(AddNode(g, checkpoints, node))
  {
    if node.id.RunStart? { ReachesItself(g.edges, node.id); }
  }

  // ---------------------------------------------------------------- the recursive forms spelled out

  lemma {:induction false} BeforeMeans(order: seq<NodeId>, a: NodeId, b: NodeId)
    requires Before(order, a, b)
    ensures exists i, j :: 0 <= i < j < |order| && order[i] == a && order[j] == b
  {
    var front := order[..|order| - 1];
    if order[|order| - 1] == b && a in front {
      var i :| 0 <= i < |front| && front[i] == a;
      assert order[i] == a;
    } else {
      BeforeMeans(front, a, b);
      var i, j :| 0 <= i < j < |front| && front[i] == a && front[j] == b;
      assert order[i] == a && order[j] == b;
    }
  }

  lemma {:induction false} HasParentMeans(edges: seq<Edge>, id: NodeId)
    ensures HasParent(edges, id) <==> exists i :: 0 <= i < |edges| && edges[i].target == id
  {
    if edges != [] {
      var front := edges[..|edges| - 1];
      HasParentMeans(front, id);
      if exists i :: 0 <= i < |edges| && edges[i].target == id {
        var i :| 0 <= i < |edges| && edges[i].target == id;
        if i < |front| { assert front[i].target == id; }
      }
      if HasParent(front, id) {
        var i :| 0 <= i < |front| && front[i].target == id;
        assert edges[i].target == id;
      }
    }
  }

  lemma {:induction false} SingleParentsMeans(edges: seq<Edge>, i: nat, j: nat)
    requires SingleParents(edges) && i < j < |edges|
    ensures edges[i].target != edges[j].target
    decreases |edges|
  {
    var front := edges[..|edges| - 1];
    if j < |front| {
      SingleParentsMeans(front, i, j);
    } else {
      HasParentMeans(front, edges[j].target);
      assert front[i] == edges[i];
    }
  }

  lemma {:induction false} ForwardMeans(order: seq<NodeId>, edges: seq<Edge>, k: nat)
    requires Forward(order, edges) && k < |edges|
    ensures exists i, j :: 0 <= i < j < |order| && order[i] == edges[k].source && order[j] == edges[k].target
    decreases |edges|
  {
    if k == |edges| - 1 {
      BeforeMeans(order, edges[k].source, edges[k].target);
    } else {
      ForwardMeans(order, edges[..|edges| - 1], k);
    }
  }
}
