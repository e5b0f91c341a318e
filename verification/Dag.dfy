/**
 Building the workflow graph (`internal/scheduler/dag.go`).

 `BuildDAG` validates nodes and edges and runs Kahn's algorithm.  It succeeds exactly on the
 well-formed acyclic workflows, every error names a defect that is really there, and the order it
 produces is the only topological one that breaks ties by the last predecessor and the key, although
 Go's map iteration is random.
 */
module Dags {
  import opened Sorting
  import opened Wrappers
  import opened Graphs

  datatype WorkflowNode = WorkflowNode(nodeKey: Key, nodeType: string, maxRetry: int)
  datatype WorkflowEdge = WorkflowEdge(source: Key, target: Key)

  datatype Node = Node(key: Key, nodeType: string, maxRetry: int)

  datatype Dag = Dag(nodes: map<Key, Node>, edges: map<Key, seq<Key>>, inDegree: map<Key, int>, order: seq<Key>)

  datatype DagError =
    | EmptyWorkflow
    | InvalidNode
    | DuplicateNode(key: Key)
    | DanglingEdge(key: Key)
    | Cycle

  const NODE_TYPES: set<string> :=
    {"input", "llm", "rag", "tool", "condition", "approval", "supervisor", "output"}

  predicate ValidateNodeType(t: string) {
    t in NODE_TYPES
  }

  // ---------- What a workflow means ----------

  ghost function EdgeSet(edges: seq<WorkflowEdge>): set<(Key, Key)> {
    set e | e in edges :: (e.source, e.target)
  }

  ghost function KeySet(nodes: seq<WorkflowNode>): set<Key> {
    set n | n in nodes :: n.nodeKey
  }

  ghost function GraphOf(nodes: seq<WorkflowNode>, edges: seq<WorkflowEdge>): Graph {
    Graph(KeySet(nodes), EdgeSet(edges))
  }

  ghost predicate NodesValid(nodes: seq<WorkflowNode>) {
    && (forall i :: 0 <= i < |nodes| ==> nodes[i].nodeKey != "" && ValidateNodeType(nodes[i].nodeType))
    && (forall i, j :: 0 <= i < j < |nodes| ==> nodes[i].nodeKey != nodes[j].nodeKey)
  }

  ghost predicate EdgesValid(keys: set<Key>, edges: seq<WorkflowEdge>) {
    && (forall i :: 0 <= i < |edges| ==> edges[i].source in keys && edges[i].target in keys)
    && Distinct(edges)
  }

  /** The workflows the engine can run. */
  ghost predicate Runnable(nodes: seq<WorkflowNode>, edges: seq<WorkflowEdge>) {
    nodes != [] && NodesValid(nodes) && EdgesValid(KeySet(nodes), edges) && Acyclic(GraphOf(nodes, edges))
  }

  /** The defect each error reports. */
  ghost predicate Explains(err: DagError, nodes: seq<WorkflowNode>, edges: seq<WorkflowEdge>) {
    match err
    case EmptyWorkflow => nodes == []
    case InvalidNode =>
      || (exists i :: 0 <= i < |nodes| && (nodes[i].nodeKey == "" || !ValidateNodeType(nodes[i].nodeType)))
      || !Distinct(edges)
    case DuplicateNode(k) => exists i, j :: 0 <= i < j < |nodes| && nodes[i].nodeKey == k == nodes[j].nodeKey
    case DanglingEdge(k) =>
      k !in KeySet(nodes) && exists i :: 0 <= i < |edges| && k in {edges[i].source, edges[i].target}
    case Cycle => exists k :: Reaches(GraphOf(nodes, edges), k, k)
  }

  // ---------- The graph a Dag holds ----------

  function Succs(edges: map<Key, seq<Key>>, k: Key): seq<Key> {
    if k in edges then edges[k] else []
  }

  /** The targets of the edges out of `k`, in definition order. */
  ghost function Targets(edges: seq<WorkflowEdge>, k: Key): seq<Key> {
    if edges == [] then []
    else
      var last := |edges| - 1;
      Targets(edges[..last], k) + if edges[last].source == k then [edges[last].target] else []
  }

  ghost function DagGraph(d: Dag): Graph {
    Graph(d.nodes.Keys, set s, t | s in d.edges && t in d.edges[s] :: (s, t))
  }

  /** Adjacency lists that list each edge of `g` once. */
  ghost predicate Adjacency(g: Graph, edges: map<Key, seq<Key>>) {
    forall k {:trigger Succs(edges, k)} ::
      Distinct(Succs(edges, k)) && forall t :: t in Succs(edges, k) <==> (k, t) in g.edges
  }

  /** What the scheduler relies on. */
  ghost predicate WellFormed(d: Dag) {
    var g := DagGraph(d);
    && Closed(g)
    && Adjacency(g, d.edges)
    && TopologicalOrder(g, d.order)
    && d.inDegree.Keys == d.nodes.Keys
    && forall k :: k in d.nodes ==> d.inDegree[k] == |Preds(g, k)|
  }

  // ---------- Validation ----------

  /** The tables after the nodes `ns`. */
  ghost predicate Added(ns: seq<WorkflowNode>, table: map<Key, Node>, inDegree: map<Key, int>) {
    && NodesValid(ns)
    && table.Keys == inDegree.Keys == KeySet(ns)
    && forall n :: n in ns ==>
         table[n.nodeKey] == Node(n.nodeKey, n.nodeType, n.maxRetry) && inDegree[n.nodeKey] == 0
  }

  lemma AddStep(ns: seq<WorkflowNode>, table: map<Key, Node>, inDegree: map<Key, int>, n: WorkflowNode)
    requires Added(ns, table, inDegree) && n.nodeKey != "" && ValidateNodeType(n.nodeType) && n.nodeKey !in table
    ensures Added(ns + [n], table[n.nodeKey := Node(n.nodeKey, n.nodeType, n.maxRetry)], inDegree[n.nodeKey := 0])
  {
    forall i | 0 <= i < |ns| ensures ns[i].nodeKey in KeySet(ns) && ns[i].nodeKey != n.nodeKey {}
    forall x ensures x in KeySet(ns + [n]) <==> x in KeySet(ns) || x == n.nodeKey {
      if x == n.nodeKey { assert n in ns + [n]; }
      if x in KeySet(ns) { var m :| m in ns && m.nodeKey == x; assert m in ns + [n]; }
    }
  }

  lemma RepeatedKey(nodes: seq<WorkflowNode>, i: nat)
    requires i < |nodes| && nodes[i].nodeKey in KeySet(nodes[..i])
    ensures exists j :: 0 <= j < i && nodes[j].nodeKey == nodes[i].nodeKey
  {
    var m :| m in nodes[..i] && m.nodeKey == nodes[i].nodeKey;
    var j :| 0 <= j < i && nodes[j] == m;
  }

  method AddNodes(nodes: seq<WorkflowNode>) returns (r: Result<(map<Key, Node>, map<Key, int>), DagError>)
    ensures r.Success? <==> NodesValid(nodes)
    ensures r.Failure? ==> (r.error.InvalidNode? || r.error.DuplicateNode?) && !NodesValid(nodes)
    ensures r.Failure? ==> forall edges :: Explains(r.error, nodes, edges)
    ensures r.Success? ==> Added(nodes, r.value.0, r.value.1)
  {
    var table: map<Key, Node> := map[];
    var inDegree: map<Key, int> := map[];
    for i := 0 to |nodes|
      invariant Added(nodes[..i], table, inDegree)
    {
      var n := nodes[i];
      if n.nodeKey == "" {
        return Failure(InvalidNode);
      }
      if n.nodeKey in table {
        RepeatedKey(nodes, i);
        return Failure(DuplicateNode(n.nodeKey));
      }
      if !ValidateNodeType(n.nodeType) {
        return Failure(InvalidNode);
      }
      AddStep(nodes[..i], table, inDegree, n);
      assert nodes[..i + 1] == nodes[..i] + [n];
      table := table[n.nodeKey := Node(n.nodeKey, n.nodeType, n.maxRetry)];
      inDegree := inDegree[n.nodeKey := 0];
    }
    assert nodes[..|nodes|] == nodes;
    r := Success((table, inDegree));
  }

  lemma EdgeSetMember(es: seq<WorkflowEdge>, e: WorkflowEdge)
    ensures (e.source, e.target) in EdgeSet(es) <==> e in es
  {
    if (e.source, e.target) in EdgeSet(es) {
      var x :| x in es && (x.source, x.target) == (e.source, e.target);
      assert x == e;
    }
  }

  lemma PredsOfExtended(keys: set<Key>, es: seq<WorkflowEdge>, e: WorkflowEdge, t: Key)
    requires e.source in keys && e !in es
    ensures |Preds(Graph(keys, EdgeSet(es + [e])), t)|
         == |Preds(Graph(keys, EdgeSet(es)), t)| + if t == e.target then 1 else 0
  {
    var before := Preds(Graph(keys, EdgeSet(es)), t);
    var after := Preds(Graph(keys, EdgeSet(es + [e])), t);
    assert EdgeSet(es + [e]) == EdgeSet(es) + {(e.source, e.target)};
    EdgeSetMember(es, e);
    if t == e.target {
      assert after == before + {e.source};
    } else {
      assert after == before;
    }
  }

  lemma {:induction false} TargetsElems(es: seq<WorkflowEdge>, k: Key)
    requires Distinct(es)
    ensures Distinct(Targets(es, k))
    ensures forall t :: t in Targets(es, k) <==> (k, t) in EdgeSet(es)
  {
    if es != [] {
      var last := |es| - 1;
      var e := es[last];
      TargetsElems(es[..last], k);
      assert es == es[..last] + [e];
      assert EdgeSet(es) == EdgeSet(es[..last]) + {(e.source, e.target)};
      EdgeSetMember(es[..last], e);
    }
  }

  /** The tables after the edges `es`. */
  ghost predicate Linked(keys: set<Key>, es: seq<WorkflowEdge>, adj: map<Key, seq<Key>>, inDegree: map<Key, int>) {
    && EdgesValid(keys, es)
    && (forall k :: Succs(adj, k) == Targets(es, k))
    && inDegree.Keys == keys
    && (forall t :: t in keys ==> inDegree[t] == |Preds(Graph(keys, EdgeSet(es)), t)|)
  }

  lemma LinkTargets(es: seq<WorkflowEdge>, adj: map<Key, seq<Key>>, e: WorkflowEdge, k: Key)
    requires Succs(adj, k) == Targets(es, k) && Succs(adj, e.source) == Targets(es, e.source)
    ensures Succs(adj[e.source := Succs(adj, e.source) + [e.target]], k) == Targets(es + [e], k)
  {
    assert (es + [e])[..|es|] == es;
  }

  lemma LinkDegrees(keys: set<Key>, es: seq<WorkflowEdge>, inDegree: map<Key, int>, e: WorkflowEdge)
    requires e.source in keys && e.target in keys && e !in es && inDegree.Keys == keys
    requires forall t :: t in keys ==> inDegree[t] == |Preds(Graph(keys, EdgeSet(es)), t)|
    ensures forall t :: t in keys ==>
      inDegree[e.target := inDegree[e.target] + 1][t] == |Preds(Graph(keys, EdgeSet(es + [e])), t)|
  {
    hide Preds, EdgeSet;
    forall t | t in keys { PredsOfExtended(keys, es, e, t); }
  }

  lemma LinkStep(keys: set<Key>, es: seq<WorkflowEdge>, adj: map<Key, seq<Key>>, inDegree: map<Key, int>,
                 e: WorkflowEdge)
    requires Linked(keys, es, adj, inDegree) && e.source in keys && e.target in keys && e !in es
    ensures Linked(keys, es + [e], adj[e.source := Succs(adj, e.source) + [e.target]],
                   inDegree[e.target := inDegree[e.target] + 1])
  {
    hide Targets, Preds, EdgeSet, Succs;
    forall k { LinkTargets(es, adj, e, k); }
    LinkDegrees(keys, es, inDegree, e);
  }

  lemma RepeatedEdge(edges: seq<WorkflowEdge>, i: nat)
    requires i < |edges| && edges[i] in edges[..i]
    ensures !Distinct(edges)
  {
    var j :| 0 <= j < i && edges[j] == edges[i];
  }

  /** The fault that an error about the edges reports. */
  ghost predicate EdgeFault(err: DagError, keys: set<Key>, edges: seq<WorkflowEdge>) {
    match err
    case DanglingEdge(k) => k !in keys && exists i :: 0 <= i < |edges| && k in {edges[i].source, edges[i].target}
    case Cycle => exists k :: Reaches(Graph(keys, EdgeSet(edges)), k, k)
    case InvalidNode => !Distinct(edges)
    case _ => false
  }

  lemma SelfLoop(keys: set<Key>, edges: seq<WorkflowEdge>, i: nat)
    requires i < |edges| && edges[i].source == edges[i].target
    ensures EdgeFault(Cycle, keys, edges)
  {
    EdgeSetMember(edges, edges[i]);
    EdgeReaches(Graph(keys, EdgeSet(edges)), edges[i].source, edges[i].source);
  }

  lemma EdgeSetSnoc(es: seq<WorkflowEdge>, e: WorkflowEdge)
    ensures EdgeSet(es + [e]) == EdgeSet(es) + {(e.source, e.target)}
  {
  }

  /** One pass of the loop over the edges. */
  method AddEdge(keys: set<Key>, edges: seq<WorkflowEdge>, i: nat, seen: set<(Key, Key)>,
                 adj: map<Key, seq<Key>>, inDegree: map<Key, int>)
    returns (r: Result<(set<(Key, Key)>, map<Key, seq<Key>>, map<Key, int>), DagError>)
    requires i < |edges| && Linked(keys, edges[..i], adj, inDegree) && seen == EdgeSet(edges[..i])
    ensures match r
      case Failure(err) => EdgeFault(err, keys, edges)
      case Success((seen', adj', inDegree')) =>
        Linked(keys, edges[..i + 1], adj', inDegree') && seen' == EdgeSet(edges[..i + 1])
  {
    var e := edges[i];
    if e.source !in keys {
      return Failure(DanglingEdge(e.source));
    }
    if e.target !in keys {
      return Failure(DanglingEdge(e.target));
    }
    if e.source == e.target {
      SelfLoop(keys, edges, i);
      return Failure(Cycle);
    }
    EdgeSetMember(edges[..i], e);
    if (e.source, e.target) in seen {
      RepeatedEdge(edges, i);
      return Failure(InvalidNode);
    }
    assert edges[..i + 1] == edges[..i] + [e];
    assert inDegree.Keys == keys;
    hide *;
    LinkStep(keys, edges[..i], adj, inDegree, e);
    EdgeSetSnoc(edges[..i], e);
    r := Success((seen + {(e.source, e.target)}, adj[e.source := Succs(adj, e.source) + [e.target]],
                  inDegree[e.target := inDegree[e.target] + 1]));
  }

  method AddEdges(keys: set<Key>, zero: map<Key, int>, edges: seq<WorkflowEdge>)
    returns (r: Result<(map<Key, seq<Key>>, map<Key, int>), DagError>)
    requires zero.Keys == keys && forall k :: k in keys ==> zero[k] == 0
    ensures match r
      case Failure(err) => EdgeFault(err, keys, edges)
      case Success((adj, inDegree)) => Linked(keys, edges, adj, inDegree)
  {
    var adj: map<Key, seq<Key>> := map[];
    var inDegree := zero;
    var seen: set<(Key, Key)> := {};
    assert forall t :: Preds(Graph(keys, EdgeSet([])), t) == {};
    assert Linked(keys, edges[..0], adj, inDegree);
    assert seen == EdgeSet(edges[..0]);
    hide *;
    for i := 0 to |edges|
      invariant Linked(keys, edges[..i], adj, inDegree)
      invariant seen == EdgeSet(edges[..i])
    {
      var added := AddEdge(keys, edges, i, seen, adj, inDegree);
      if added.Failure? {
        return Failure(added.error);
      }
      seen, adj, inDegree := added.value.0, added.value.1, added.value.2;
    }
    assert edges[..|edges|] == edges;
    r := Success((adj, inDegree));
  }

  // ---------- Kahn's algorithm ----------

  /** Predecessors that the order does not hold yet. */
  ghost function Waiting(g: Graph, done: set<Key>, t: Key): set<Key> {
    Preds(g, t) - done
  }

  /** Keys whose predecessors are all in `done`. */
  ghost function Unblocked(g: Graph, done: set<Key>): set<Key> {
    set t | t in g.nodes && Waiting(g, done, t) == {}
  }

  /** The keys of which `cur` is the last predecessor to enter the order. */
  ghost function Freed(g: Graph, order: seq<Key>, cur: Key): set<Key> {
    set t | t in g.nodes && (cur, t) in g.edges && Preds(g, t) <= Elems(order) + {cur}
  }

  ghost predicate DegreesMatch(g: Graph, done: set<Key>, inDegree: map<Key, int>) {
    inDegree.Keys == g.nodes && forall t :: t in g.nodes ==> inDegree[t] == |Waiting(g, done, t)|
  }

  /** The order and the queue hold, once each, exactly the keys the order unblocks. */
  ghost predicate Frontier(g: Graph, order: seq<Key>, queue: seq<Key>) {
    && Distinct(order) && Distinct(queue) && Elems(order) !! Elems(queue)
    && Elems(order) + Elems(queue) == Unblocked(g, Elems(order))
  }

  ghost predicate KahnInv(g: Graph, order: seq<Key>, queue: seq<Key>, inDegree: map<Key, int>) {
    && Frontier(g, order, queue)
    && Forward(g, order) && TieBreak(g, order + queue)
    && DegreesMatch(g, Elems(order), inDegree)
  }

  /** Lowers the in-degree of each successor and collects those that reach zero. */
  method Release(succs: seq<Key>, before: map<Key, int>) returns (after: map<Key, int>, next: seq<Key>)
    requires Distinct(succs) && forall t :: t in succs ==> t in before
    ensures after.Keys == before.Keys
    ensures forall t :: t in before ==> after[t] == before[t] - if t in succs then 1 else 0
    ensures Distinct(next) && forall t :: t in next <==> t in succs && before[t] == 1
  {
    after, next := before, [];
    for j := 0 to |succs|
      invariant after.Keys == before.Keys
      invariant forall t :: t in before ==> after[t] == before[t] - if t in succs[..j] then 1 else 0
      invariant Distinct(next) && forall t :: t in next <==> t in succs[..j] && before[t] == 1
    {
      var t := succs[j];
      assert t !in succs[..j];
      assert succs[..j + 1] == succs[..j] + [t];
      after := after[t := after[t] - 1];
      if after[t] == 0 {
        next := next + [t];
      }
    }
    assert succs[..|succs|] == succs;
  }

  lemma WaitingStep(g: Graph, done: set<Key>, cur: Key, t: Key)
    requires cur in g.nodes && cur !in done
    ensures |Waiting(g, done + {cur}, t)| == |Waiting(g, done, t)| - if (cur, t) in g.edges then 1 else 0
    ensures Waiting(g, done + {cur}, t) == Waiting(g, done, t) - {cur}
  {
    assert Waiting(g, done + {cur}, t) == Waiting(g, done, t) - {cur};
    assert cur in Waiting(g, done, t) <==> (cur, t) in g.edges;
  }

  lemma DegreesStep(g: Graph, done: set<Key>, cur: Key, before: map<Key, int>, after: map<Key, int>)
    requires DegreesMatch(g, done, before) && cur in g.nodes && cur !in done
    requires Lowered(g, cur, before, after)
    ensures DegreesMatch(g, done + {cur}, after)
  {
    forall t | t in g.nodes ensures after[t] == |Waiting(g, done + {cur}, t)| {
      WaitingStep(g, done, cur, t);
    }
  }

  lemma FreedKey(g: Graph, order: seq<Key>, cur: Key, inDegree: map<Key, int>, t: Key)
    requires DegreesMatch(g, Elems(order), inDegree) && cur in g.nodes && cur !in order && t in g.nodes
    ensures ((cur, t) in g.edges && inDegree[t] == 1) <==> t in Freed(g, order, cur)
    ensures t in Freed(g, order, cur) ==> t !in Unblocked(g, Elems(order))
    ensures t in Unblocked(g, Elems(order) + {cur}) <==> t in Unblocked(g, Elems(order)) || t in Freed(g, order, cur)
  {
    var done := Elems(order);
    WaitingStep(g, done, cur, t);
    assert Preds(g, t) <= done + {cur} <==> Waiting(g, done + {cur}, t) == {};
    assert (cur, t) in g.edges ==> cur in Waiting(g, done, t);
  }

  /** Exactly the successors whose in-degree was one become unblocked. */
  lemma FreedStep(g: Graph, order: seq<Key>, cur: Key, inDegree: map<Key, int>, next: set<Key>)
    requires Closed(g) && DegreesMatch(g, Elems(order), inDegree) && cur in g.nodes && cur !in order
    requires forall t :: t in next <==> (cur, t) in g.edges && inDegree[t] == 1
    ensures next == Freed(g, order, cur)
    ensures next !! Unblocked(g, Elems(order))
    ensures Unblocked(g, Elems(order) + {cur}) == Unblocked(g, Elems(order)) + next
  {
    forall t | t in g.nodes { FreedKey(g, order, cur, inDegree, t); }
    assert Freed(g, order, cur) <= g.nodes && next <= g.nodes && Unblocked(g, Elems(order)) <= g.nodes;
    assert Unblocked(g, Elems(order) + {cur}) <= g.nodes;
    hide Freed, Unblocked, DegreesMatch, Closed;
  }

  lemma ForwardStep(g: Graph, order: seq<Key>, cur: Key)
    requires Closed(g) && Forward(g, order) && cur in Unblocked(g, Elems(order))
    ensures Forward(g, order + [cur])
  {
    var order' := order + [cur];
    forall i, s | 0 <= i < |order'| && (s, order'[i]) in g.edges ensures s in order'[..i] {
      if i < |order| {
        assert order'[..i] == order[..i];
      } else {
        assert order'[..i] == order;
        assert s in Preds(g, cur) && s !in Waiting(g, Elems(order), cur);
      }
    }
  }

  /** `next` lists the successors of `cur` that have no other predecessor left. */
  ghost predicate LastPredecessor(g: Graph, cur: Key, inDegree: map<Key, int>, next: seq<Key>) {
    Distinct(next) && forall t :: t in Elems(next) <==> (cur, t) in g.edges && t in inDegree && inDegree[t] == 1
  }

  ghost predicate Lowered(g: Graph, cur: Key, before: map<Key, int>, after: map<Key, int>) {
    && after.Keys == before.Keys
    && forall t :: t in before ==> after[t] == before[t] - if (cur, t) in g.edges then 1 else 0
  }

  lemma FrontierNext(g: Graph, order: seq<Key>, queue: seq<Key>, next: seq<Key>)
    requires Frontier(g, order, queue) && queue != [] && Distinct(next)
    requires Elems(next) !! Unblocked(g, Elems(order))
    requires Unblocked(g, Elems(order) + {queue[0]}) == Unblocked(g, Elems(order)) + Elems(next)
    ensures Frontier(g, order + [queue[0]], queue[1..] + next)
  {
    ElemsHead(queue);
    ElemsSnoc(order, queue[0]);
    ElemsConcat(queue[1..], next);
  }

  /** Nothing that waits for `next` changes where the last predecessors of the others stand. */
  lemma OldLastPred(g: Graph, order: seq<Key>, queue: seq<Key>, next: seq<Key>, k: Key)
    requires Frontier(g, order, queue) && Elems(next) !! Unblocked(g, Elems(order)) && k in Unblocked(g, Elems(order))
    ensures LastPred(g, (order + queue) + next, k) == LastPred(g, order + queue, k) < |order|
  {
    var s := order + queue;
    assert Elems(order) <= Unblocked(g, Elems(order)) && Waiting(g, Elems(order), k) == {};
    forall i | |order| <= i < |s + next| ensures (s + next)[i] !in Preds(g, k) {
      var x := (s + next)[i];
      assert if i < |s| then x == queue[i - |order|] && x in Elems(queue) else x == next[i - |s|] && x in Elems(next);
      assert x in Preds(g, k) && x !in Elems(order) ==> x in Waiting(g, Elems(order), k);
    }
    assert forall i :: |order| <= i < |s| ==> (s + next)[i] == s[i];
    assert (s + next)[..|order|] == s[..|order|];
    LastPredPrefix(g, s + next, s, |order|, k);
  }

  /** The head of the queue is the last predecessor of what it frees. */
  lemma NewLastPred(g: Graph, order: seq<Key>, queue: seq<Key>, next: seq<Key>, k: Key)
    requires Frontier(g, order, queue) && queue != [] && Elems(next) !! Unblocked(g, Elems(order))
    requires queue[0] in g.nodes && k in Freed(g, order, queue[0])
    ensures LastPred(g, (order + queue) + next, k) == |order|
  {
    var s := (order + queue) + next;
    forall i | |order| < i < |s| ensures s[i] !in Preds(g, k) {
      assert i < |order + queue| ==> s[i] == queue[i - |order|] && s[i] in Elems(queue) && s[i] != queue[0];
      assert i >= |order + queue| ==> next[i - |order + queue|] in Elems(next);
      assert queue[0] in Elems(queue);
    }
    assert s[|order|] == queue[0] && queue[0] in Preds(g, k);
  }

  lemma TieBreakStep(g: Graph, order: seq<Key>, queue: seq<Key>, next: seq<Key>)
    requires Frontier(g, order, queue) && queue != [] && queue[0] in g.nodes && TieBreak(g, order + queue)
    requires Elems(next) == Freed(g, order, queue[0]) && Elems(next) !! Unblocked(g, Elems(order)) && Sorted(next)
    ensures TieBreak(g, (order + [queue[0]]) + (queue[1..] + next))
  {
    var s := order + queue;
    assert (order + [queue[0]]) + (queue[1..] + next) == s + next;
    forall i | 0 <= i < |s| ensures LastPred(g, s + next, s[i]) == LastPred(g, s, s[i]) < |order| {
      assert s[i] in Elems(order) || s[i] in Elems(queue);
      OldLastPred(g, order, queue, next, s[i]);
    }
    forall i | 0 <= i < |next| ensures LastPred(g, s + next, next[i]) == |order| {
      assert next[i] in Elems(next);
      NewLastPred(g, order, queue, next, next[i]);
    }
    hide LastPred, Freed, Unblocked, Frontier, Elems;
  }

  lemma KahnStep(g: Graph, order: seq<Key>, queue: seq<Key>, inDegree: map<Key, int>,
                 after: map<Key, int>, next: seq<Key>)
    requires Closed(g) && KahnInv(g, order, queue, inDegree) && queue != []
    requires Lowered(g, queue[0], inDegree, after)
    requires LastPredecessor(g, queue[0], inDegree, next) && Sorted(next)
    ensures KahnInv(g, order + [queue[0]], queue[1..] + next, after)
  {
    QueueHead(g, order, queue, inDegree);
    FreedStep(g, order, queue[0], inDegree, Elems(next));
    FrontierNext(g, order, queue, next);
    TieBreakStep(g, order, queue, next);
    DegreesStep(g, Elems(order), queue[0], inDegree, after);
    ForwardStep(g, order, queue[0]);
    ElemsSnoc(order, queue[0]);
  }

  /** The keys of in-degree zero; the map is walked in an arbitrary order. */
  method Roots(inDegree: map<Key, int>) returns (roots: seq<Key>)
    ensures Distinct(roots) && forall k :: k in roots <==> k in inDegree && inDegree[k] == 0
  {
    var keys := inDegree.Keys;
    roots := [];
    while keys != {}
      invariant keys <= inDegree.Keys
      invariant Distinct(roots) && forall k :: k in roots <==> k in inDegree && k !in keys && inDegree[k] == 0
      decreases |keys|
    {
      var k :| k in keys;
      keys := keys - {k};
      if inDegree[k] == 0 {
        roots := roots + [k];
      }
    }
  }

  lemma Released(g: Graph, adj: map<Key, seq<Key>>, cur: Key, before: map<Key, int>, after: map<Key, int>,
                 next: seq<Key>, sorted: seq<Key>)
    requires Adjacency(g, adj) && after.Keys == before.Keys
    requires forall t :: t in Succs(adj, cur) ==> t in before
    requires forall t :: t in before ==> after[t] == before[t] - if t in Succs(adj, cur) then 1 else 0
    requires forall t :: t in next <==> t in Succs(adj, cur) && before[t] == 1
    requires Distinct(sorted) && Elems(sorted) == Elems(next)
    ensures Lowered(g, cur, before, after) && LastPredecessor(g, cur, before, sorted)
  {
    forall t ensures t in Elems(sorted) <==> t in next {
      assert t in Elems(sorted) <==> t in Elems(next);
    }
    assert forall t :: t in Succs(adj, cur) <==> (cur, t) in g.edges;
  }

  /** Takes the head of the queue and appends the keys it frees, sorted. */
  method KahnRound(ghost g: Graph, adj: map<Key, seq<Key>>, ghost order: seq<Key>, queue: seq<Key>,
                   inDegree: map<Key, int>)
    returns (queue': seq<Key>, inDegree': map<Key, int>)
    requires Closed(g) && Adjacency(g, adj) && KahnInv(g, order, queue, inDegree) && queue != []
    ensures KahnInv(g, order + [queue[0]], queue', inDegree')
  {
    var after, next := Release(Succs(adj, queue[0]), inDegree);
    var sorted := SortDistinct(next);
    SortedKeysSorted(Elems(next));
    Released(g, adj, queue[0], inDegree, after, next, sorted);
    KahnStep(g, order, queue, inDegree, after, sorted);
    queue', inDegree' := queue[1..] + sorted, after;
  }

  method KahnSort(ghost g: Graph, adj: map<Key, seq<Key>>, degrees: map<Key, int>) returns (order: seq<Key>)
    requires Closed(g) && Adjacency(g, adj) && degrees.Keys == g.nodes
    requires forall t :: t in g.nodes ==> degrees[t] == |Preds(g, t)|
    ensures TieBreak(g, order)
    ensures |order| == |g.nodes| ==> TopologicalOrder(g, order)
    ensures |order| != |g.nodes| ==> exists k :: Reaches(g, k, k)
  {
    var inDegree := degrees;
    var roots := Roots(inDegree);
    var queue := SortDistinct(roots);
    NothingDone(g, degrees);
    RootsUnblocked(g, degrees, roots);
    KahnStart(g, degrees, queue);
    order := [];
    while queue != []
      invariant KahnInv(g, order, queue, inDegree)
      decreases |g.nodes| - |order|
    {
      QueueHead(g, order, queue, inDegree);
      ghost var before := order;
      order := order + [queue[0]];
      queue, inDegree := KahnRound(g, adj, before, queue, inDegree);
    }
    KahnExit(g, order, inDegree);
  }

  lemma QueueHead(g: Graph, order: seq<Key>, queue: seq<Key>, inDegree: map<Key, int>)
    requires KahnInv(g, order, queue, inDegree) && queue != []
    ensures queue[0] in g.nodes && queue[0] !in order && queue[0] in Unblocked(g, Elems(order))
    ensures |order| < |g.nodes|
  {
    assert queue[0] in Elems(queue);
    DistinctCard(order);
    SubsetCard(Elems(order), g.nodes - {queue[0]});
  }

  lemma NothingDone(g: Graph, degrees: map<Key, int>)
    requires degrees.Keys == g.nodes && forall t :: t in g.nodes ==> degrees[t] == |Preds(g, t)|
    ensures DegreesMatch(g, {}, degrees)
    ensures Unblocked(g, {}) == (set k | k in g.nodes && Preds(g, k) == {})
  {
    assert forall t :: Waiting(g, {}, t) == Preds(g, t);
  }

  lemma RootsUnblocked(g: Graph, degrees: map<Key, int>, roots: seq<Key>)
    requires DegreesMatch(g, {}, degrees)
    requires forall k :: k in roots <==> k in degrees && degrees[k] == 0
    ensures Elems(roots) == Unblocked(g, {})
  {
    assert forall t :: t in g.nodes ==> (degrees[t] == 0 <==> Waiting(g, {}, t) == {});
  }

  lemma KahnStart(g: Graph, degrees: map<Key, int>, queue: seq<Key>)
    requires DegreesMatch(g, {}, degrees)
    requires queue == SortedKeys(Unblocked(g, {}))
    ensures KahnInv(g, [], queue, degrees)
  {
    RootsTieBreak(g, queue);
    RootsFrontier(g, queue);
    var none: seq<Key> := [];
    assert Elems(none) == {} && none + queue == queue;
    assert Forward(g, none);
    hide Frontier, TieBreak, Forward, DegreesMatch, Elems;
    assert KahnInv(g, none, queue, degrees);
  }

  lemma RootsFrontier(g: Graph, queue: seq<Key>)
    requires queue == SortedKeys(Unblocked(g, {}))
    ensures Frontier(g, [], queue)
  {
    assert Elems<Key>([]) == {};
  }

  lemma RootsTieBreak(g: Graph, queue: seq<Key>)
    requires queue == SortedKeys(Unblocked(g, {}))
    ensures TieBreak(g, queue)
  {
    SortedKeysSorted(Unblocked(g, {}));
    forall i | 0 <= i < |queue| ensures LastPred(g, queue, queue[i]) == -1 {
      assert queue[i] in Elems(queue);
      assert Waiting(g, {}, queue[i]) == Preds(g, queue[i]);
    }
    hide LastPred, SortedKeys;
  }

  /** When the queue runs empty, the keys left out each wait for one another: they hold a cycle. */
  lemma KahnExit(g: Graph, order: seq<Key>, inDegree: map<Key, int>)
    requires Closed(g) && KahnInv(g, order, [], inDegree)
    ensures TieBreak(g, order)
    ensures |order| == |g.nodes| ==> TopologicalOrder(g, order)
    ensures |order| != |g.nodes| ==> exists k :: Reaches(g, k, k)
  {
    var done := Elems(order);
    assert order + [] == order;
    assert Elems<Key>([]) == {};
    assert done == Unblocked(g, done);
    DistinctCard(order);
    SubsetCard(done, g.nodes);
    if |order| != |g.nodes| {
      var left := g.nodes - done;
      assert left == {} ==> done == g.nodes;
      forall t | t in left ensures HasPredIn(g, left, t) {
        var s :| s in Waiting(g, done, t);
        assert s in left;
      }
      var k := CycleAmong(g, left);
    }
  }

  // ---------- BuildDAG ----------

  /** What a successfully built graph holds. */
  ghost predicate Represents(d: Dag, nodes: seq<WorkflowNode>, edges: seq<WorkflowEdge>) {
    && DagGraph(d) == GraphOf(nodes, edges)
    && (forall n :: n in nodes ==>
          n.nodeKey in d.nodes && d.nodes[n.nodeKey] == Node(n.nodeKey, n.nodeType, n.maxRetry))
    && (forall k :: Succs(d.edges, k) == Targets(edges, k))
    && TopologicalOrder(GraphOf(nodes, edges), d.order) && TieBreak(GraphOf(nodes, edges), d.order)
  }

  lemma LinkedAdjacency(g: Graph, edges: seq<WorkflowEdge>, adj: map<Key, seq<Key>>)
    requires g.edges == EdgeSet(edges) && Distinct(edges) && forall k :: Succs(adj, k) == Targets(edges, k)
    ensures Adjacency(g, adj)
  {
    forall k ensures Distinct(Succs(adj, k)) && forall t :: t in Succs(adj, k) <==> (k, t) in g.edges {
      TargetsElems(edges, k);
    }
  }

  lemma EdgesClosed(g: Graph, edges: seq<WorkflowEdge>)
    requires g.edges == EdgeSet(edges) && EdgesValid(g.nodes, edges)
    ensures Closed(g)
  {
  }

  lemma AdjacencyGraph(d: Dag, g: Graph)
    requires Adjacency(g, d.edges) && d.nodes.Keys == g.nodes
    ensures DagGraph(d) == g
  {
    forall s, t ensures (s, t) in DagGraph(d).edges <==> (s, t) in g.edges {
      assert t in Succs(d.edges, s) <==> (s, t) in g.edges;
    }
    forall e ensures e in DagGraph(d).edges <==> e in g.edges {
      assert e == (e.0, e.1);
    }
  }

  method BuildDAG(nodes: seq<WorkflowNode>, edges: seq<WorkflowEdge>) returns (r: Result<Dag, DagError>)
    ensures r.Success? <==> Runnable(nodes, edges)
    ensures r.Success? ==> WellFormed(r.value) && Represents(r.value, nodes, edges)
    ensures r.Failure? ==> Explains(r.error, nodes, edges)
  {
    if |nodes| == 0 {
      return Failure(EmptyWorkflow);
    }
    var added := AddNodes(nodes);
    if added.Failure? {
      return Failure(added.error);
    }
    var table := added.value.0;
    assert forall k :: k in table.Keys ==> added.value.1[k] == 0;
    ghost var g := GraphOf(nodes, edges);
    var linked := AddEdges(table.Keys, added.value.1, edges);
    if linked.Failure? {
      if linked.error.Cycle? { CyclicNotRunnable(nodes, edges); }
      return Failure(linked.error);
    }
    var adj, inDegree := linked.value.0, linked.value.1;
    LinkedAdjacency(g, edges, adj);
    EdgesClosed(g, edges);
    var order := KahnSort(g, adj, inDegree);
    if |order| != |table| {
      CyclicNotRunnable(nodes, edges);
      return Failure(Cycle);
    }
    TopologicalOrderAcyclic(g, order);
    var d := Dag(table, adj, inDegree, order);
    AdjacencyGraph(d, g);
    r := Success(d);
  }

  lemma CyclicNotRunnable(nodes: seq<WorkflowNode>, edges: seq<WorkflowEdge>)
    requires exists k :: Reaches(GraphOf(nodes, edges), k, k)
    ensures !Runnable(nodes, edges)
  {
  }

  // ---------- Queries used by the scheduler ----------

  /** The predecessors of `k`, sorted: the order in which their outputs enter the prompt of `k`. */
  ghost function InputKeys(d: Dag, k: Key): seq<Key> {
    SortedKeys(set s | s in d.edges && k in d.edges[s])
  }

  method InputsOf(d: Dag, key: Key) returns (out: seq<Key>)
    requires forall s :: s in d.edges ==> Distinct(d.edges[s])
    ensures out == InputKeys(d, key)
  {
    var sources := d.edges.Keys;
    out := [];
    while sources != {}
      invariant sources <= d.edges.Keys
      invariant Distinct(out) && forall s :: s in out <==> s in d.edges && s !in sources && key in d.edges[s]
      decreases |sources|
    {
      var src :| src in sources;
      sources := sources - {src};
      var targets := d.edges[src];
      for i := 0 to |targets|
        invariant Distinct(out) && forall s :: s in out <==>
          s in d.edges && s !in sources && if s == src then key in targets[..i] else key in d.edges[s]
      {
        assert targets[..i + 1] == targets[..i] + [targets[i]];
        if targets[i] == key {
          assert key !in targets[..i];
          out := out + [src];
        }
      }
      assert targets[..|targets|] == targets;
    }
    assert Elems(out) == set s | s in d.edges && key in d.edges[s];
    out := SortDistinct(out);
  }

  // ---------- The order of inputs ----------

  /** The sources of the edges into `k`, in definition order. */
  ghost function Sources(edges: seq<WorkflowEdge>, k: Key): seq<Key> {
    if edges == [] then []
    else
      var last := |edges| - 1;
      Sources(edges[..last], k) + if edges[last].target == k then [edges[last].source] else []
  }

  lemma {:induction false} SourcesElems(es: seq<WorkflowEdge>, k: Key)
    requires Distinct(es)
    ensures Distinct(Sources(es, k))
    ensures forall s :: s in Sources(es, k) <==> (s, k) in EdgeSet(es)
  {
    if es != [] {
      var last := |es| - 1;
      var e := es[last];
      SourcesElems(es[..last], k);
      assert es == es[..last] + [e];
      assert EdgeSet(es) == EdgeSet(es[..last]) + {(e.source, e.target)};
      EdgeSetMember(es[..last], e);
    }
  }

  lemma InputsAreSources(d: Dag, nodes: seq<WorkflowNode>, edges: seq<WorkflowEdge>, k: Key)
    requires Distinct(edges) && Represents(d, nodes, edges)
    ensures Distinct(Sources(edges, k)) && InputKeys(d, k) == SortedKeys(Elems(Sources(edges, k)))
  {
    SourcesElems(edges, k);
    forall s ensures s in Sources(edges, k) <==> s in d.edges && k in d.edges[s] {
      TargetsElems(edges, s);
      assert k in Succs(d.edges, s) <==> (s, k) in EdgeSet(edges);
    }
    hide Sources, EdgeSet, Targets, Represents;
    assert Elems(Sources(edges, k)) == set s | s in d.edges && k in d.edges[s];
  }

  /** The inputs come in the order in which their edges were defined iff the edges were defined in key order. */
  lemma InputsInDefinitionOrderIff(d: Dag, nodes: seq<WorkflowNode>, edges: seq<WorkflowEdge>, k: Key)
    requires Distinct(edges) && Represents(d, nodes, edges)
    ensures InputKeys(d, k) == Sources(edges, k) <==> Sorted(Sources(edges, k))
  {
    InputsAreSources(d, nodes, edges, k);
    SortedKeysSorted(Elems(Sources(edges, k)));
    hide InputKeys, Sources, Represents;
    if Sorted(Sources(edges, k)) { SortedUnique(Sources(edges, k)); }
  }

  lemma TwoSources(x: Key, y: Key, k: Key)
    ensures Sources([WorkflowEdge(x, k), WorkflowEdge(y, k)], k) == [x, y]
  {
    assert [WorkflowEdge(x, k), WorkflowEdge(y, k)][..1] == [WorkflowEdge(x, k)];
    assert Sources([WorkflowEdge(x, k)], k) == [x];
  }

  lemma JoinAcyclic(g: Graph, x: Key, y: Key, k: Key)
    requires x != y && x != k && y != k && g == Graph({x, y, k}, {(x, k), (y, k)})
    ensures Acyclic(g)
  {
    var order := [x, y, k];
    assert order[..2] == [x, y];
    assert forall i, s :: 0 <= i < 3 && (s, order[i]) in g.edges ==> i == 2;
    TopologicalOrderAcyclic(g, order);
  }

  lemma JoinGraph(nodes: seq<WorkflowNode>, edges: seq<WorkflowEdge>, x: Key, y: Key, k: Key)
    requires nodes == [WorkflowNode(x, "input", 0), WorkflowNode(y, "input", 0), WorkflowNode(k, "llm", 0)]
    requires edges == [WorkflowEdge(x, k), WorkflowEdge(y, k)]
    ensures GraphOf(nodes, edges) == Graph({x, y, k}, {(x, k), (y, k)})
  {
    assert nodes[0] in nodes && nodes[1] in nodes && nodes[2] in nodes;
    assert edges[0] in edges && edges[1] in edges;
  }

  /** Two nodes that lead to a third form a runnable workflow, whichever edge is defined first. */
  lemma JoinRunnable(nodes: seq<WorkflowNode>, edges: seq<WorkflowEdge>, x: Key, y: Key, k: Key)
    requires x != "" && y != "" && k != "" && x != y && x != k && y != k
    requires nodes == [WorkflowNode(x, "input", 0), WorkflowNode(y, "input", 0), WorkflowNode(k, "llm", 0)]
    requires edges == [WorkflowEdge(x, k), WorkflowEdge(y, k)]
    ensures Runnable(nodes, edges)
  {
    JoinGraph(nodes, edges, x, y, k);
    JoinAcyclic(GraphOf(nodes, edges), x, y, k);
    hide Acyclic, EdgeSet;
  }

  /** The edge from "b" is defined before the one from "a", but the input of "c" begins with the output of "a". */
  lemma DefinitionOrderLost() returns (nodes: seq<WorkflowNode>, edges: seq<WorkflowEdge>)
    ensures Runnable(nodes, edges) && Sources(edges, "c") == ["b", "a"]
    ensures forall d :: Represents(d, nodes, edges) ==> InputKeys(d, "c") == ["a", "b"]
  {
    nodes := [WorkflowNode("b", "input", 0), WorkflowNode("a", "input", 0), WorkflowNode("c", "llm", 0)];
    edges := [WorkflowEdge("b", "c"), WorkflowEdge("a", "c")];
    JoinRunnable(nodes, edges, "b", "a", "c");
    TwoSources("b", "a", "c");
    assert Sorted(["a", "b"]);
    SortedUnique(["a", "b"]);
    assert Elems(["a", "b"]) == Elems(["b", "a"]);
    forall d | Represents(d, nodes, edges) ensures InputKeys(d, "c") == ["a", "b"] {
      InputsAreSources(d, nodes, edges, "c");
    }
  }

  /** Nodes that are neither done nor waiting for a predecessor, in key order. */
  method ReadyNodes(d: Dag, inDegree: map<Key, int>, done: set<Key>) returns (out: seq<Key>)
    requires d.nodes.Keys <= inDegree.Keys
    ensures out == SortedKeys(set k | k in d.nodes && k !in done && inDegree[k] == 0)
  {
    var keys := d.nodes.Keys;
    out := [];
    while keys != {}
      invariant keys <= d.nodes.Keys
      invariant Distinct(out) && forall k :: k in out <==> k in d.nodes && k !in keys && k !in done && inDegree[k] == 0
      decreases |keys|
    {
      var k :| k in keys;
      keys := keys - {k};
      if k !in done && inDegree[k] == 0 {
        out := out + [k];
      }
    }
    assert Elems(out) == set k | k in d.nodes && k !in done && inDegree[k] == 0;
    out := SortDistinct(out);
  }
}
