/**
 The variables that the closures of `executeTask` share, the world they describe, and what each
 piece of loop code does to them: every change is the corresponding step of `Execution`.
 */
module TaskVars {
  import opened Sorting
  import opened Graphs
  import opened Dags
  import opened Evaluation
  import opened Execution
  import opened Refinement
  import opened Confluence
  import opened Skipping
  import opened Traffic

  // ---------- The closures' shared variables ----------

  /** The variables that skipping changes, and the stored node states. */
  datatype Books = Books(inDegree: map<Key, int>, submitted: set<Key>, remaining: int, store: map<Key, NodeStatus>)

  datatype Vars = Vars(
    phase: Phase,
    books: Books,
    results: map<Key, string>,
    failed: bool,
    retryCount: map<Key, nat>,
    pool: map<Key, Job>,
    done: map<Key, Outcome>,
    retryTimers: set<Key>)

  /** The variables that skipping leaves alone. */
  datatype Flow = Flow(phase: Phase, results: map<Key, string>, failed: bool, retryCount: map<Key, nat>,
                       pool: map<Key, Job>, done: map<Key, Outcome>, retryTimers: set<Key>)

  ghost function Both(b: Books, f: Flow): Vars {
    Vars(f.phase, b, f.results, f.failed, f.retryCount, f.pool, f.done, f.retryTimers)
  }

  /** The maps cover the nodes and every submitted node is in one place. */
  ghost predicate Coherent(t: Task, v: Vars) {
    && v.books.inDegree.Keys == v.retryCount.Keys == v.books.store.Keys == t.dag.nodes.Keys
    && v.books.submitted <= t.dag.nodes.Keys
    && (forall k :: k in v.results ==> k in v.books.submitted && k !in v.pool && k !in v.done && k !in v.retryTimers)
    && (forall k :: k in v.pool ==> k in v.books.submitted && k !in v.done && k !in v.retryTimers)
    && (forall k :: k in v.done ==> k in v.books.submitted && k !in v.retryTimers)
    && (forall k :: k in v.retryTimers ==> k in v.books.submitted)
  }

  ghost function PlaceOf(v: Vars, k: Key): Place {
    if k in v.results then HasResult(v.results[k])
    else if k in v.pool then InPool(v.pool[k])
    else if k in v.done then Buffered(v.done[k])
    else if k in v.retryTimers then OnTimer
    else if k in v.books.submitted then Blocked
    else Unsubmitted
  }

  ghost function NodeOf(v: Vars, k: Key): NodeState {
    NodeState(PlaceOf(v, k), if k in v.books.inDegree then v.books.inDegree[k] else 0,
              if k in v.retryCount then v.retryCount[k] else 0,
              if k in v.books.store then v.books.store[k] else Pending)
  }

  /** The world these variables describe. */
  ghost function WorldOf(t: Task, v: Vars): World {
    World(v.phase, v.books.remaining, v.failed, map k | k in t.dag.nodes :: NodeOf(v, k))
  }

  /** No node is under way twice, so the channel, with room for every node, never fills up. */
  lemma ChannelNeverFull(t: Task, v: Vars, pool: seq<(Key, Job)>, done: seq<(Key, Outcome)>, timers: seq<(Key, nat)>)
    requires Coherent(t, v) && v.pool == Table(pool) && v.done == Table(done) && v.retryTimers == Table(timers).Keys
    requires Once(pool) && Once(done) && Once(timers)
    ensures |pool| + |done| + |timers| <= |t.dag.nodes|
  {
    TableSize(pool);
    TableSize(done);
    TableSize(timers);
    ThreeDisjoint(v.pool.Keys, v.done.Keys, v.retryTimers, t.dag.nodes.Keys) by { hide Once, Table; }
    hide *;
  }

  lemma ThreeDisjoint(a: set<Key>, b: set<Key>, c: set<Key>, all: set<Key>)
    requires a !! b && a !! c && b !! c && a <= all && b <= all && c <= all
    ensures |a| + |b| + |c| <= |all|
  {
    assert |a + b + c| == |a + b| + |c| == |a| + |b| + |c|;
    SubsetCard(a + b + c, all);
  }

  lemma SameWorld(t: Task, v: Vars, w: World)
    requires w.phase == v.phase && w.remaining == v.books.remaining && w.failed == v.failed
    requires w.node.Keys == t.dag.nodes.Keys && forall k :: k in w.node ==> w.node[k] == NodeOf(v, k)
    ensures WorldOf(t, v) == w
  {
    assert WorldOf(t, v).node == w.node;
  }

  // ---------- Skipping ----------

  /** Skipping exactly the nodes `down` leads from `a` to `b`. */
  ghost predicate SkippedTo(a: Books, down: set<Key>, b: Books) {
    && b.submitted == a.submitted + down
    && b.remaining == a.remaining - |down - a.submitted|
    && b.inDegree.Keys == a.inDegree.Keys && b.store.Keys == a.store.Keys
    && (forall k :: k in a.inDegree && k !in down ==> b.inDegree[k] == a.inDegree[k])
    && (forall k :: k in a.store ==>
          b.store[k] == if k in down && k !in a.submitted then Concluded(Skipped) else a.store[k])
  }

  /** `down` holds the nodes downstream of `from`. */
  ghost predicate IsDownstream(t: Task, from: Key, down: set<Key>) {
    forall k {:trigger k in Descendants(t.Graph(), from)} :: k in down <==> k in Descendants(t.Graph(), from)
  }

  lemma DownstreamIs(t: Task, from: Key, down: set<Key>)
    requires down == Descendants(t.Graph(), from)
    ensures IsDownstream(t, from, down)
  {
  }

  /** A node gets its conclusion unless it has one. */
  ghost function MarkOne(b: Books, key: Key): Books {
    if key in b.submitted then b
    else b.(submitted := b.submitted + {key}, remaining := b.remaining - 1, store := b.store[key := Concluded(Skipped)])
  }

  /** One round of the skipping loop. */
  ghost function SkipOne(b: Books, cur: Key): Books
    requires cur in b.inDegree
  {
    MarkOne(b.(inDegree := b.inDegree[cur := b.inDegree[cur] - 1]), cur)
  }

  lemma SkipStarts(b: Books)
    ensures SkippedTo(b, {}, b)
  {
    assert b.submitted + {} == b.submitted;
  }

  lemma SkipOneDegrees(b: Books, cur: Key)
    requires cur in b.inDegree
    ensures SkipOne(b, cur).inDegree == b.inDegree[cur := b.inDegree[cur] - 1]
  {
  }

  lemma CountVisited(visited: set<Key>, cur: Key, before: set<Key>)
    ensures |visited + {cur} - before| == |visited - before| + if cur in before + visited then 0 else 1
  {
    if cur in before + visited {
      assert visited + {cur} - before == visited - before;
    } else {
      assert visited + {cur} - before == visited - before + {cur};
    }
  }

  lemma SkipOneMore(a: Books, visited: set<Key>, b: Books, cur: Key)
    requires SkippedTo(a, visited, b) && cur in a.inDegree && cur in a.store
    ensures SkippedTo(a, visited + {cur}, SkipOne(b, cur))
  {
    CountVisited(visited, cur, a.submitted);
  }

  lemma SkippedPlaces(t: Task, v: Vars, down: set<Key>, b: Books, k: Key)
    requires Coherent(t, v) && SkippedTo(v.books, down, b) && k in t.dag.nodes
    ensures PlaceOf(v.(books := b), k) == if k in down && PlaceOf(v, k).Unsubmitted? then Blocked else PlaceOf(v, k)
    ensures k in down && PlaceOf(v, k).Unsubmitted? ==> b.store[k] == Concluded(Skipped)
    ensures !(k in down && PlaceOf(v, k).Unsubmitted?) ==> b.store[k] == v.books.store[k]
  {
  }

  lemma SkippedNodes(t: Task, v: Vars, down: set<Key>, b: Books, k: Key)
    requires Coherent(t, v) && SkippedTo(v.books, down, b) && k in t.dag.nodes
    ensures var n, n' := WorldOf(t, v).node[k], WorldOf(t, v.(books := b)).node[k];
      if k in down then SkippedNode(n, n') else n' == n
  {
    SkippedPlaces(t, v, down, b, k);
  }

  lemma SkippedCount(t: Task, v: Vars, down: set<Key>)
    requires Coherent(t, v) && down <= t.dag.nodes.Keys
    ensures down - v.books.submitted == down * NotSubmitted(WorldOf(t, v))
  {
    forall k | k in t.dag.nodes ensures k in NotSubmitted(WorldOf(t, v)) <==> k !in v.books.submitted {}
  }

  lemma SkippedCoherent(t: Task, v: Vars, down: set<Key>, b: Books)
    requires Coherent(t, v) && SkippedTo(v.books, down, b) && down <= t.dag.nodes.Keys
    ensures Coherent(t, v.(books := b))
  {
  }

  lemma SkippingStep(t: Task, w: World, from: Key, w': World)
    requires w'.phase == w.phase && w'.failed == w.failed && w'.node.Keys == w.node.Keys
    requires w'.remaining == w.remaining - |Descendants(t.Graph(), from) * NotSubmitted(w)|
    requires forall k :: k in w.node ==>
      if k in Descendants(t.Graph(), from) then SkippedNode(w.node[k], w'.node[k]) else w'.node[k] == w.node[k]
    ensures Execution.SkipDownstream(t, w, from, w')
  {
  }

  /** What the loop does is the skipping step of the model. */
  lemma SkipIsStep(t: Task, v: Vars, from: Key, b: Books)
    requires Coherent(t, v) && SkippedTo(v.books, Descendants(t.Graph(), from), b)
    ensures Execution.SkipDownstream(t, WorldOf(t, v), from, WorldOf(t, v.(books := b)))
  {
    var down := Descendants(t.Graph(), from);
    SkippedCount(t, v, down);
    forall k | k in t.dag.nodes { SkippedNodes(t, v, down, b, k); }
    SkippingStep(t, WorldOf(t, v), from, WorldOf(t, v.(books := b)));
  }

  // ---------- Submitting ----------

  lemma ResultsOf(t: Task, v: Vars)
    requires Coherent(t, v)
    ensures WorldOf(t, v).Results() == v.results
  {
    forall k | k in t.dag.nodes ensures WorldOf(t, v).node[k].place.HasResult? <==> k in v.results {}
  }

  ghost function JobOf(t: Task, v: Vars, k: Key): Job
    requires k in v.retryCount
  {
    Job(AssembledInput(t.dag, k, v.results, t.input), v.retryCount[k])
  }

  /** Submitting exactly the nodes `keys` leads from `a` to `b`. */
  ghost predicate SubmittedTo(t: Task, a: Vars, keys: set<Key>, b: Vars) {
    && b == a.(books := a.books.(submitted := a.books.submitted + keys), pool := b.pool)
    && b.pool.Keys == a.pool.Keys + keys
    && keys <= a.retryCount.Keys
    && forall k :: k in b.pool ==> b.pool[k] == if k in keys then JobOf(t, a, k) else a.pool[k]
  }

  ghost function SubmittedOne(t: Task, v: Vars, k: Key): Vars
    requires k in v.retryCount
  {
    v.(books := v.books.(submitted := v.books.submitted + {k}), pool := v.pool[k := JobOf(t, v, k)])
  }

  ghost function ReadyKeys(t: Task, v: Vars): set<Key> {
    set k | k in t.dag.nodes && k !in v.books.submitted && k in v.books.inDegree && v.books.inDegree[k] == 0
  }

  lemma SubmittedPlace(t: Task, a: Vars, b: Vars, k: Key)
    requires Coherent(t, a) && SubmittedTo(t, a, ReadyKeys(t, a), b) && k in t.dag.nodes
    ensures NodeOf(b, k) ==
      if IsReady(NodeOf(a, k)) then NodeOf(a, k).(place := InPool(JobOf(t, a, k))) else NodeOf(a, k)
  {
    assert IsReady(NodeOf(a, k)) <==> k in ReadyKeys(t, a);
  }

  lemma SubmittedCoherent(t: Task, a: Vars, b: Vars)
    requires Coherent(t, a) && SubmittedTo(t, a, ReadyKeys(t, a), b)
    ensures Coherent(t, b.(phase := AtSelect))
  {
  }

  lemma SubmittedAgrees(t: Task, a: Vars, b: Vars, k: Key)
    requires Coherent(t, a) && SubmittedTo(t, a, ReadyKeys(t, a), b) && k in t.dag.nodes
    ensures SubmitReady(t, WorldOf(t, a)).node[k] == NodeOf(b.(phase := AtSelect), k)
  {
    ResultsOf(t, a);
    SubmittedPlace(t, a, b, k);
  }

  lemma SubmitIsStep(t: Task, a: Vars, b: Vars)
    requires Coherent(t, a) && SubmittedTo(t, a, ReadyKeys(t, a), b)
    ensures WorldOf(t, b.(phase := AtSelect)) == SubmitReady(t, WorldOf(t, a))
  {
    forall k | k in t.dag.nodes { SubmittedAgrees(t, a, b, k); }
    SameWorld(t, b.(phase := AtSelect), SubmitReady(t, WorldOf(t, a)));
  }

  lemma Prefix(keys: seq<Key>, i: nat)
    requires i < |keys| && Distinct(keys)
    ensures keys[i] in Elems(keys) && keys[i] !in Elems(keys[..i])
    ensures Elems(keys[..i + 1]) == Elems(keys[..i]) + {keys[i]}
  {
    ElemsSnoc(keys[..i], keys[i]);
    assert keys[..i + 1] == keys[..i] + [keys[i]];
  }

  lemma SubmitOneMore(t: Task, a: Vars, keys: set<Key>, b: Vars, k: Key)
    requires SubmittedTo(t, a, keys, b) && k !in keys && k in a.retryCount
    ensures SubmittedTo(t, a, keys + {k}, SubmittedOne(t, b, k))
  {
  }

  // ---------- One node moves ----------

  ghost function FinishedVars(t: Task, v: Vars, k: Key): Vars
    requires k in v.pool
  {
    var o := Execute(t, k, v.pool[k]);
    v.(pool := v.pool - {k}, done := v.done[k := o], books := v.books.(store := v.books.store[k := StatusOf(o)]))
  }

  ghost function FiredVars(t: Task, v: Vars, k: Key): Vars
    requires k in v.retryCount
  {
    v.(retryTimers := v.retryTimers - {k}, pool := v.pool[k := JobOf(t, v, k)])
  }

  /** Only node `k` differs between `v` and `v'`. */
  ghost predicate Moves(t: Task, v: Vars, k: Key, v': Vars) {
    k in t.dag.nodes && forall j :: j in t.dag.nodes && j != k ==> NodeOf(v', j) == NodeOf(v, j)
  }

  lemma MovedWorld(t: Task, v: Vars, k: Key, v': Vars)
    requires Moves(t, v, k, v')
    ensures WorldOf(t, v') ==
      World(v'.phase, v'.books.remaining, v'.failed, WorldOf(t, v).node[k := NodeOf(v', k)])
  {
    SameWorld(t, v', World(v'.phase, v'.books.remaining, v'.failed, WorldOf(t, v).node[k := NodeOf(v', k)]));
  }

  /** A node is under way in one place only. */
  lemma InOnePlace(t: Task, v: Vars, k: Key)
    requires Coherent(t, v)
    ensures k in v.pool ==> k in t.dag.nodes && k !in v.done
    ensures k in v.done ==> k in t.dag.nodes && k in v.retryCount && k !in v.retryTimers
    ensures k in v.retryTimers ==> k in t.dag.nodes && k in v.retryCount && k !in v.pool
    ensures v.books.inDegree.Keys == v.books.store.Keys == t.dag.nodes.Keys
  {
  }

  lemma FinishCoherent(t: Task, v: Vars, k: Key)
    requires Coherent(t, v) && k in v.pool
    ensures Coherent(t, FinishedVars(t, v, k))
  {
  }

  lemma FinishMoves(t: Task, v: Vars, k: Key)
    requires Coherent(t, v) && k in v.pool
    ensures Moves(t, v, k, FinishedVars(t, v, k))
  {
  }

  lemma FinishIsStep(t: Task, v: Vars, k: Key)
    requires Coherent(t, v) && k in v.pool
    ensures WorldOf(t, FinishedVars(t, v, k)) == Finish(t, WorldOf(t, v), k)
  {
    FinishCoherent(t, v, k);
    FinishMoves(t, v, k);
    MovedWorld(t, v, k, FinishedVars(t, v, k));
  }

  lemma FireJob(t: Task, v: Vars, v': Vars, k: Key)
    requires k in v.retryCount && v'.retryCount == v.retryCount && v'.results == v.results
    ensures JobOf(t, v', k) == JobOf(t, v, k)
  {
  }

  lemma FireCoherent(t: Task, v: Vars, k: Key)
    requires Coherent(t, v) && k in v.retryTimers
    ensures Coherent(t, FiredVars(t, v, k))
  {
    hide JobOf;
  }

  lemma FireMoves(t: Task, v: Vars, k: Key)
    requires Coherent(t, v) && k in v.retryTimers
    ensures Coherent(t, FiredVars(t, v, k)) && Moves(t, v, k, FiredVars(t, v, k))
  {
    FireCoherent(t, v, k);
    hide JobOf;
  }

  lemma FireIsStep(t: Task, v: Vars, k: Key)
    requires Coherent(t, v) && k in v.retryTimers
    ensures WorldOf(t, FiredVars(t, v, k)) == Fire(t, WorldOf(t, v), k)
  {
    ResultsOf(t, v);
    FireMoves(t, v, k);
    MovedWorld(t, v, k, FiredVars(t, v, k));
  }

  // ---------- Taking an outcome ----------

  /** The outcome of `k` has left the channel. */
  ghost function Received(v: Vars, k: Key): Vars {
    v.(done := v.done - {k})
  }

  ghost function RetryVars(v: Vars, k: Key): Vars
    requires k in v.retryCount
  {
    v.(phase := Top, done := v.done - {k}, retryTimers := v.retryTimers + {k},
       retryCount := v.retryCount[k := v.retryCount[k] + 1])
  }

  lemma RetryMoves(t: Task, v: Vars, k: Key)
    requires Coherent(t, v) && k in v.done
    ensures Coherent(t, RetryVars(v, k)) && Moves(t, v, k, RetryVars(v, k))
  {
    hide WorldOf;
  }

  lemma RetryIsStep(t: Task, v: Vars, k: Key)
    requires Coherent(t, v) && k in v.done
    ensures WorldOf(t, RetryVars(v, k)) == TakeRetry(WorldOf(t, v), k)
  {
    RetryMoves(t, v, k);
    MovedWorld(t, v, k, RetryVars(v, k));
  }

  /** The outcome of `k` is taken and leaves no result. */
  ghost function TakenVars(v: Vars, k: Key, phase: Phase, failed: bool, remaining: int): Vars {
    v.(phase := phase, failed := failed, done := v.done - {k}, books := v.books.(remaining := remaining))
  }

  lemma TakenMoves(t: Task, v: Vars, k: Key, phase: Phase, failed: bool, remaining: int)
    requires Coherent(t, v) && k in v.done
    ensures var v' := TakenVars(v, k, phase, failed, remaining);
      Coherent(t, v') && Moves(t, v, k, v') && NodeOf(v', k) == NodeOf(v, k).(place := Blocked)
  {
  }

  lemma TakenIsStep(t: Task, v: Vars, k: Key, phase: Phase, failed: bool, remaining: int)
    requires Coherent(t, v) && k in v.done
    ensures WorldOf(t, TakenVars(v, k, phase, failed, remaining)) ==
      World(phase, remaining, failed, WorldOf(t, v).node[k := WorldOf(t, v).node[k].(place := Blocked)])
  {
    TakenMoves(t, v, k, phase, failed, remaining);
    MovedWorld(t, v, k, TakenVars(v, k, phase, failed, remaining));
  }

  /** The in-degrees after node `k` succeeded. */
  ghost predicate LoweredBy(a: map<Key, int>, succs: seq<Key>, b: map<Key, int>) {
    b.Keys == a.Keys && forall j :: j in a ==> b[j] == a[j] - if j in succs then 1 else 0
  }

  lemma LoweredMore(a: map<Key, int>, succs: seq<Key>, i: nat, b: map<Key, int>)
    requires i < |succs| && succs[i] !in succs[..i] && succs[..i + 1] == succs[..i] + [succs[i]]
    requires LoweredBy(a, succs[..i], b) && succs[i] in b
    ensures LoweredBy(a, succs[..i + 1], b[succs[i] := b[succs[i]] - 1])
  {
  }

  ghost function SucceededVars(v: Vars, k: Key, output: string, inDegree: map<Key, int>): Vars {
    v.(phase := Top, done := v.done - {k}, results := v.results[k := output],
       books := v.books.(remaining := v.books.remaining - 1, inDegree := inDegree))
  }

  lemma SuccessCoherent(t: Task, v: Vars, k: Key, output: string, inDegree: map<Key, int>)
    requires Coherent(t, v) && k in v.done && inDegree.Keys == v.books.inDegree.Keys
    ensures Coherent(t, SucceededVars(v, k, output, inDegree))
  {
  }

  lemma SuccessNode(t: Task, v: Vars, k: Key, output: string, inDegree: map<Key, int>, j: Key)
    requires Coherent(t, v) && k in v.done && LoweredBy(v.books.inDegree, Succs(t.dag.edges, k), inDegree)
    requires j in t.dag.nodes && k !in Succs(t.dag.edges, k)
    ensures NodeOf(SucceededVars(v, k, output, inDegree), j) ==
      if j == k then NodeOf(v, j).(place := HasResult(output))
      else if j in Succs(t.dag.edges, k) then NodeOf(v, j).(inDegree := NodeOf(v, j).inDegree - 1)
      else NodeOf(v, j)
  {
  }

  lemma SuccessAgrees(t: Task, v: Vars, k: Key, output: string, inDegree: map<Key, int>, j: Key)
    requires k !in Succs(t.dag.edges, k) && Coherent(t, v) && k in v.done
      && LoweredBy(v.books.inDegree, Succs(t.dag.edges, k), inDegree)
    requires j in t.dag.nodes
    ensures TakeDone(t, WorldOf(t, v), k, output).node[j] == NodeOf(SucceededVars(v, k, output, inDegree), j)
  {
    SuccessNode(t, v, k, output, inDegree, j);
  }

  lemma SuccessIsStep(t: Task, v: Vars, k: Key, output: string, inDegree: map<Key, int>)
    requires k !in Succs(t.dag.edges, k) && Coherent(t, v) && k in v.done
      && LoweredBy(v.books.inDegree, Succs(t.dag.edges, k), inDegree)
    ensures WorldOf(t, SucceededVars(v, k, output, inDegree)) == TakeDone(t, WorldOf(t, v), k, output)
  {
    var w', v' := TakeDone(t, WorldOf(t, v), k, output), SucceededVars(v, k, output, inDegree);
    assert w'.phase == v'.phase && w'.remaining == v'.books.remaining && w'.failed == v'.failed;
    assert w'.node.Keys == t.dag.nodes.Keys;
    hide Coherent, NodeOf, LoweredBy, TakeDone, SucceededVars, WorldOf;
    forall j | j in t.dag.nodes { SuccessAgrees(t, v, k, output, inDegree, j); }
    SameWorld(t, v', w');
  }

  lemma SuccessorKnown(t: Task, k: Key, s: Key)
    requires t.Valid() && s in Succs(t.dag.edges, k)
    ensures s in t.dag.nodes
  {
    assert (k, s) in t.Graph().edges;
  }

  lemma DistinctAt(keys: seq<Key>, i: nat)
    requires Distinct(keys) && i < |keys|
    ensures keys[i] !in keys[..i] && keys[..i + 1] == keys[..i] + [keys[i]]
  {
  }

  lemma SuccessorAt(t: Task, k: Key, i: nat)
    requires t.Valid() && i < |Succs(t.dag.edges, k)|
    ensures var succs := Succs(t.dag.edges, k);
      succs[i] in t.dag.nodes && succs[i] !in succs[..i] && succs[..i + 1] == succs[..i] + [succs[i]]
  {
    assert Distinct(Succs(t.dag.edges, k));
    hide *;
    SuccessorKnown(t, k, Succs(t.dag.edges, k)[i]);
    DistinctAt(Succs(t.dag.edges, k), i);
  }

  lemma NoSelfEdge(t: Task, k: Key)
    requires t.Valid()
    ensures k !in Succs(t.dag.edges, k)
  {
    var g := t.Graph();
    if k in Succs(t.dag.edges, k) {
      assert (k, k) in g.edges;
      TopologicalOrderAcyclic(g, t.dag.order);
      EdgeReaches(g, k, k);
    }
  }

  ghost predicate FailedTo(t: Task, v: Vars, k: Key, v': Vars) {
    var u := TakenVars(v, k, Top, true, v.books.remaining - 1);
    SkippedTo(u.books, Descendants(t.Graph(), k), v'.books) && v' == u.(books := v'.books)
  }

  lemma FailedToIntro(t: Task, v: Vars, k: Key, f: Flow, b: Books, down: set<Key>, b': Books)
    requires Both(b, f) == TakenVars(v, k, Top, true, v.books.remaining - 1)
    requires IsDownstream(t, k, down) && SkippedTo(b, down, b')
    ensures FailedTo(t, v, k, Both(b', f))
  {
    assert down == Descendants(t.Graph(), k);
  }

  /** What handling the outcome of `k` does to the variables. */
  ghost predicate Outcomes(t: Task, v: Vars, v': Vars, k: Key) {
    && k in v.done && k in v.retryCount
    && match v.done[k]
       case AwaitApproval => v' == TakenVars(v, k, Stopped, v.failed, 0)
       case Fail =>
         if ShouldRetry(t.MaxRetry(k), v.retryCount[k]) then v' == RetryVars(v, k)
         else FailedTo(t, v, k, v')
       case Done(output) =>
         && LoweredBy(v.books.inDegree, Succs(t.dag.edges, k), v'.books.inDegree)
         && v' == SucceededVars(v, k, output, v'.books.inDegree)
  }

  // ---------- The four outcomes, once received from the channel ----------

  lemma OutcomePaused(t: Task, v: Vars, k: Key)
    requires k in v.done && k in v.retryCount && v.done[k] == AwaitApproval
    ensures Outcomes(t, v, TakenVars(Received(v, k), k, Stopped, v.failed, 0), k)
  {
    assert v.done - {k} - {k} == v.done - {k};
  }

  lemma OutcomeRetried(t: Task, v: Vars, k: Key)
    requires k in v.done && k in v.retryCount && v.done[k] == Fail && ShouldRetry(t.MaxRetry(k), v.retryCount[k])
    ensures Outcomes(t, v, RetryVars(Received(v, k), k), k)
  {
    assert v.done - {k} - {k} == v.done - {k};
  }

  lemma OutcomeFailed(t: Task, v: Vars, k: Key, v': Vars)
    requires k in v.done && k in v.retryCount && v.done[k] == Fail && !ShouldRetry(t.MaxRetry(k), v.retryCount[k])
    requires FailedTo(t, Received(v, k), k, v')
    ensures Outcomes(t, v, v', k)
  {
    assert v.done - {k} - {k} == v.done - {k};
    assert TakenVars(Received(v, k), k, Top, true, v.books.remaining - 1)
      == TakenVars(v, k, Top, true, v.books.remaining - 1);
    hide SkippedTo;
  }

  lemma OutcomeDone(t: Task, v: Vars, k: Key, output: string, inDegree: map<Key, int>)
    requires k in v.done && k in v.retryCount && v.done[k] == Done(output)
    requires LoweredBy(v.books.inDegree, Succs(t.dag.edges, k), inDegree)
    ensures Outcomes(t, v, SucceededVars(Received(v, k), k, output, inDegree), k)
  {
    assert v.done - {k} - {k} == v.done - {k};
    hide LoweredBy;
  }

  lemma FailureIsStep(t: Task, v: Vars, v': Vars, k: Key)
    requires Coherent(t, v) && k in v.done && v.phase == AtSelect
    requires FailedTo(t, v, k, v')
    ensures Coherent(t, v') && Execution.SkipDownstream(t, FailedOnce(WorldOf(t, v), k), k, WorldOf(t, v'))
  {
    var u := TakenVars(v, k, Top, true, v.books.remaining - 1);
    TakenMoves(t, v, k, Top, true, v.books.remaining - 1);
    TakenIsStep(t, v, k, Top, true, v.books.remaining - 1);
    SkippedCoherent(t, u, Descendants(t.Graph(), k), v'.books);
    SkipIsStep(t, u, k, v'.books);
  }

  /** Handling an outcome is the loop's step of the model. */
  lemma OutcomeIsStep(t: Task, v: Vars, v': Vars, k: Key)
    requires t.Valid() && Coherent(t, v) && v.phase == AtSelect && v.books.remaining > 0 && Outcomes(t, v, v', k)
    ensures Coherent(t, v') && Take(t, WorldOf(t, v), WorldOf(t, v'), k)
  {
    assert WorldOf(t, v).node[k] == NodeOf(v, k);
    match v.done[k] {
      case AwaitApproval =>
        TakenMoves(t, v, k, Stopped, v.failed, 0);
        TakenIsStep(t, v, k, Stopped, v.failed, 0);
      case Fail =>
        if ShouldRetry(t.MaxRetry(k), v.retryCount[k]) {
          RetryMoves(t, v, k);
          RetryIsStep(t, v, k);
        } else {
          FailureIsStep(t, v, v', k);
        }
      case Done(output) =>
        NoSelfEdge(t, k);
        SuccessCoherent(t, v, k, output, v'.books.inDegree);
        SuccessIsStep(t, v, k, output, v'.books.inDegree);
    }
  }

  // ---------- The end of the task's context ----------

  ghost function AbortedVars(t: Task, v: Vars): Vars {
    v.(phase := Stopped,
       books := Books(v.books.inDegree, t.dag.nodes.Keys, 0,
                      map k | k in v.books.store :: if k in v.books.submitted then v.books.store[k] else Cancelled))
  }

  /** The nodes `keys` have been gone through. */
  ghost predicate CancelledTo(before: map<Key, NodeStatus>, submitted: set<Key>, keys: set<Key>,
                              now: map<Key, NodeStatus>, marked: set<Key>) {
    && marked == submitted + keys && now.Keys == before.Keys
    && forall k :: k in before ==> now[k] == if k in keys && k !in submitted then Cancelled else before[k]
  }

  lemma CancelledEach(before: map<Key, NodeStatus>, submitted: set<Key>, now: map<Key, NodeStatus>, marked: set<Key>)
    requires CancelledTo(before, submitted, before.Keys, now, marked)
    ensures now.Keys == before.Keys
    ensures forall k :: k in now ==> now[k] == if k in submitted then before[k] else Cancelled
  {
  }

  lemma CancelOneMore(before: map<Key, NodeStatus>, submitted: set<Key>, all: set<Key>, todo: set<Key>, key: Key,
                      now: map<Key, NodeStatus>, marked: set<Key>)
    requires CancelledTo(before, submitted, all - todo, now, marked) && key in todo && todo <= all && key in before
    ensures CancelledTo(before, submitted, all - (todo - {key}),
                        if key in marked then now else now[key := Cancelled], marked + {key})
  {
    assert all - (todo - {key}) == all - todo + {key};
  }

  lemma CancelledAll(t: Task, v: Vars, store: map<Key, NodeStatus>, submitted: set<Key>)
    requires v.books.store.Keys == t.dag.nodes.Keys && v.books.submitted <= t.dag.nodes.Keys
    requires CancelledTo(v.books.store, v.books.submitted, t.dag.nodes.Keys, store, submitted)
    ensures AbortedVars(t, v) == v.(phase := Stopped, books := Books(v.books.inDegree, submitted, 0, store))
  {
    assert store == AbortedVars(t, v).books.store;
  }

  lemma AbortedCoherent(t: Task, v: Vars)
    requires Coherent(t, v)
    ensures Coherent(t, AbortedVars(t, v))
  {
  }

  lemma AbortedNode(t: Task, v: Vars, k: Key)
    requires Coherent(t, v) && k in t.dag.nodes
    ensures NodeOf(AbortedVars(t, v), k) ==
      if NodeOf(v, k).place.Unsubmitted? then NodeOf(v, k).(place := Blocked, status := Cancelled) else NodeOf(v, k)
  {
  }

  lemma AbortIsStep(t: Task, v: Vars)
    requires Coherent(t, v)
    ensures WorldOf(t, AbortedVars(t, v)) == Abort(WorldOf(t, v))
  {
    forall k | k in t.dag.nodes { AbortedNode(t, v, k); }
    hide Coherent, NodeOf;
    SameWorld(t, AbortedVars(t, v), Abort(WorldOf(t, v)));
  }

  // ---------- Checkpoint restore ----------

  datatype TaskNode = TaskNode(key: Key, status: NodeStatus)

  /** The variables before the restore: nothing has a conclusion. */
  ghost predicate Fresh(t: Task, v: Vars) {
    && v.phase == Top && !v.failed && v.results == map[] && v.pool == map[] && v.done == map[] && v.retryTimers == {}
    && v.retryCount.Keys == t.dag.nodes.Keys && (forall k :: k in v.retryCount ==> v.retryCount[k] == 0)
    && v.books.store.Keys == t.dag.nodes.Keys
    && v.books == Books(t.dag.inDegree, {}, |t.dag.nodes|, v.books.store)
  }

  lemma FreshStart(t: Task, v: Vars, store: map<Key, NodeStatus>)
    requires store.Keys == t.dag.nodes.Keys
    requires v == Vars(Top, Books(t.dag.inDegree, {}, |t.dag.nodes|, store), map[], false,
                       map k | k in t.dag.nodes :: 0, map[], map[], {})
    ensures Fresh(t, v)
  {
  }

  /** The rows hold each stored node once. */
  ghost predicate Lists(rows: seq<TaskNode>, store: map<Key, NodeStatus>) {
    && (forall i, j :: 0 <= i < j < |rows| ==> rows[i].key != rows[j].key)
    && (forall i :: 0 <= i < |rows| ==> rows[i].key in store && rows[i].status == store[rows[i].key])
    && (forall k :: k in store ==> exists i :: 0 <= i < |rows| && rows[i].key == k)
  }

  /** The conclusions among the rows. */
  ghost function StoredAmong(rows: seq<TaskNode>): map<Key, Conclusion> {
    if rows == [] then map[]
    else
      var last := rows[|rows| - 1];
      var c := StoredAmong(rows[..|rows| - 1]);
      if last.status.Concluded? then c[last.key := last.status.c] else c
  }

  lemma StoredStart(rows: seq<TaskNode>)
    ensures StoredAmong(rows[..0]) == map[]
  {
  }

  lemma {:induction false} StoredMember(rows: seq<TaskNode>, k: Key)
    requires forall i, j :: 0 <= i < j < |rows| ==> rows[i].key != rows[j].key
    ensures k in StoredAmong(rows) ==> exists i :: 0 <= i < |rows| && rows[i].key == k && rows[i].status.Concluded?
    ensures forall i :: 0 <= i < |rows| && rows[i].key == k && rows[i].status.Concluded? ==>
      k in StoredAmong(rows) && StoredAmong(rows)[k] == rows[i].status.c
  {
    if rows != [] {
      StoredMember(rows[..|rows| - 1], k);
    }
  }

  lemma StoredOneMore(rows: seq<TaskNode>, store: map<Key, NodeStatus>, i: nat)
    requires Lists(rows, store) && i < |rows|
    ensures rows[i].key in store && store[rows[i].key] == rows[i].status
    ensures rows[i].key !in StoredAmong(rows[..i])
    ensures StoredAmong(rows[..i + 1]) ==
      if rows[i].status.Concluded? then StoredAmong(rows[..i])[rows[i].key := rows[i].status.c]
      else StoredAmong(rows[..i])
  {
    StoredMember(rows[..i], rows[i].key);
    assert rows[..i + 1][..i] == rows[..i];
  }

  lemma StoredAll(rows: seq<TaskNode>, store: map<Key, NodeStatus>)
    requires Lists(rows, store)
    ensures StoredAmong(rows) == Stored(store)
  {
    forall k ensures k in StoredAmong(rows) <==> k in Stored(store)
      ensures k in StoredAmong(rows) ==> StoredAmong(rows)[k] == Stored(store)[k]
    {
      StoredMember(rows, k);
    }
  }

  /** `blocked` holds the nodes downstream of those that `c` records as failed or skipped. */
  ghost predicate IsBlocked(t: Task, c: map<Key, Conclusion>, blocked: set<Key>) {
    forall k {:trigger k in Downstream(t.Graph(), c)} :: k in blocked <==> k in Downstream(t.Graph(), c)
  }

  /** Every node with a conclusion in `c` and every skipped one is accounted for once. */
  ghost predicate Counted(n: nat, c: map<Key, Conclusion>, blocked: set<Key>, b: Books) {
    b.submitted == c.Keys + blocked && b.remaining == n - |c.Keys + blocked|
  }

  /** The stored states after the nodes `blocked` have been skipped; conclusions in `c` are never overwritten. */
  ghost predicate StoreRestored(store: map<Key, NodeStatus>, c: map<Key, Conclusion>, blocked: set<Key>,
                                now: map<Key, NodeStatus>) {
    && now.Keys == store.Keys && blocked <= store.Keys
    && (forall k :: k in c ==> k in store && store[k] == Concluded(c[k]))
    && (forall k :: k in store ==> now[k] == store[k] || (now[k] == Concluded(Skipped) && k in blocked))
    && (forall k :: k in blocked ==> now[k] == Concluded(Skipped) || store[k].Concluded?)
  }

  /** After the conclusions `c` have been read back and the nodes `blocked` have been skipped. */
  ghost predicate BooksRestored(t: Task, store: map<Key, NodeStatus>, c: map<Key, Conclusion>, blocked: set<Key>,
                                b: Books) {
    && b.inDegree.Keys == store.Keys == t.dag.nodes.Keys
    && IsBlocked(t, c, blocked)
    && Counted(|store.Keys|, c, blocked, b)
    && StoreRestored(store, c, blocked, b.store)
    && DegreesRestored(t, c, b)
  }

  /** The in-degree of a node not yet accounted for counts the predecessors not known to have succeeded. */
  ghost predicate DegreesRestored(t: Task, c: map<Key, Conclusion>, b: Books) {
    forall k :: k in b.inDegree && k !in b.submitted ==> b.inDegree[k] == |Preds(t.Graph(), k) - Outputs(c).Keys|
  }

  ghost predicate MarkedTerminal(a: Books, key: Key, succs: seq<Key>, b: Books) {
    if key in a.submitted then b == a
    else
      && b == Books(b.inDegree, a.submitted + {key}, a.remaining - 1, a.store)
      && LoweredBy(a.inDegree, succs, b.inDegree)
  }

  lemma OutputsGrow(c: map<Key, Conclusion>, k: Key, x: Conclusion)
    requires k !in c
    ensures Outputs(c[k := x]) == if x.Succeeded? then Outputs(c)[k := x.output] else Outputs(c)
    ensures SomeFailed(c[k := x]) <==> SomeFailed(c) || x == Failed
  {
    if SomeFailed(c) {
      var j :| j in c && c[j] == Failed;
      assert j in c[k := x] && c[k := x][j] == Failed;
    }
    if x == Failed { assert c[k := x][k] == Failed; }
  }

  lemma DownstreamGrows(g: Graph, c: map<Key, Conclusion>, k: Key, x: Conclusion)
    requires k !in c
    ensures Downstream(g, c[k := x]) == Downstream(g, c) + if x.Succeeded? then {} else Descendants(g, k)
  {
    forall b | b in Downstream(g, c) ensures b in Downstream(g, c[k := x]) {
      var a :| a in c && !c[a].Succeeded? && Reaches(g, a, b);
      assert a in c[k := x] && c[k := x][a] == c[a];
    }
    forall b | !x.Succeeded? && b in Descendants(g, k) ensures b in Downstream(g, c[k := x]) {
      assert k in c[k := x];
    }
  }

  lemma BlockedGrows(t: Task, c: map<Key, Conclusion>, blocked: set<Key>, k: Key, x: Conclusion, down: set<Key>)
    requires k !in c && IsBlocked(t, c, blocked)
    requires if x.Succeeded? then down == {} else IsDownstream(t, k, down)
    ensures IsBlocked(t, c[k := x], blocked + down)
  {
    DownstreamGrows(t.Graph(), c, k, x);
    assert blocked == Downstream(t.Graph(), c);
  }

  lemma CountUnion(a: set<Key>, b: set<Key>)
    ensures |a + b| == |a| + |b - a|
  {
    assert a + b == a + (b - a);
  }

  lemma CountMarked(n: nat, c: map<Key, Conclusion>, blocked: set<Key>, b: Books, k: Key, x: Conclusion,
                    succs: seq<Key>, b': Books)
    requires Counted(n, c, blocked, b) && MarkedTerminal(b, k, succs, b')
    ensures Counted(n, c[k := x], blocked, b')
  {
    var all := c.Keys + blocked;
    assert c[k := x].Keys + blocked == all + {k};
    if k in all { assert all + {k} == all; }
  }

  lemma CountSkipped(n: nat, c: map<Key, Conclusion>, blocked: set<Key>, b: Books, down: set<Key>, b': Books)
    requires Counted(n, c, blocked, b) && SkippedTo(b, down, b')
    ensures Counted(n, c, blocked + down, b')
  {
    CountUnion(c.Keys + blocked, down);
    assert c.Keys + (blocked + down) == c.Keys + blocked + down;
  }

  lemma StoreConcluded(store: map<Key, NodeStatus>, c: map<Key, Conclusion>, blocked: set<Key>,
                       now: map<Key, NodeStatus>, k: Key, x: Conclusion)
    requires StoreRestored(store, c, blocked, now) && k in store && store[k] == Concluded(x)
    ensures StoreRestored(store, c[k := x], blocked, now)
  {
  }

  lemma StoreSkipped(store: map<Key, NodeStatus>, c: map<Key, Conclusion>, blocked: set<Key>, b: Books,
                     down: set<Key>, b': Books)
    requires StoreRestored(store, c, blocked, b.store) && b.submitted == c.Keys + blocked
    requires SkippedTo(b, down, b') && down <= store.Keys
    ensures StoreRestored(store, c, blocked + down, b'.store)
  {
  }

  lemma DownstreamClosed(t: Task, c: map<Key, Conclusion>, k: Key, j: Key)
    requires t.Valid() && k in Downstream(t.Graph(), c) && (k, j) in t.Graph().edges
    ensures j in Downstream(t.Graph(), c)
  {
    var a :| a in c && !c[a].Succeeded? && Reaches(t.Graph(), a, k);
    EdgeReaches(t.Graph(), k, j);
    ReachesTransitive(t.Graph(), a, k, j);
  }

  lemma DegreeDrops(t: Task, c: map<Key, Conclusion>, k: Key, output: string, j: Key)
    requires t.Valid() && k !in c && k in t.dag.nodes
    ensures |Preds(t.Graph(), j) - Outputs(c[k := Succeeded(output)]).Keys|
         == |Preds(t.Graph(), j) - Outputs(c).Keys| - if j in Succs(t.dag.edges, k) then 1 else 0
  {
    OutputsGrow(c, k, Succeeded(output));
    assert k !in Outputs(c);
    assert Outputs(c[k := Succeeded(output)]).Keys == Outputs(c).Keys + {k};
    OneMoreDone(t, Outputs(c).Keys, k, j);
  }

  /** A node not yet accounted for keeps the right in-degree when `k` turns out to have succeeded. */
  lemma DegreeAfterSuccess(t: Task, c: map<Key, Conclusion>, b: Books, k: Key, b': Books, j: Key)
    requires t.Valid() && j in b.inDegree && j !in b'.submitted
    requires k in b.submitted ==> j in Succs(t.dag.edges, k) ==> j in b.submitted
    requires MarkedTerminal(b, k, Succs(t.dag.edges, k), b')
    ensures j !in b.submitted && j in b'.inDegree
    ensures b'.inDegree[j] == b.inDegree[j] - if j in Succs(t.dag.edges, k) then 1 else 0
  {
  }

  lemma SuccessorsBlocked(t: Task, c: map<Key, Conclusion>, blocked: set<Key>, k: Key, j: Key)
    requires t.Valid() && IsBlocked(t, c, blocked) && k in blocked && j in Succs(t.dag.edges, k)
    ensures j in blocked
  {
    assert k in Downstream(t.Graph(), c);
    assert (k, j) in t.Graph().edges;
    DownstreamClosed(t, c, k, j);
  }

  lemma DegreesAfterSuccess(t: Task, c: map<Key, Conclusion>, blocked: set<Key>, b: Books, k: Key, output: string,
                            b': Books)
    requires t.Valid() && k !in c && k in t.dag.nodes && IsBlocked(t, c, blocked) && b.submitted == c.Keys + blocked
    requires DegreesRestored(t, c, b) && MarkedTerminal(b, k, Succs(t.dag.edges, k), b')
    ensures DegreesRestored(t, c[k := Succeeded(output)], b')
  {
    forall j | j in b'.inDegree && j !in b'.submitted
      ensures b'.inDegree[j] == |Preds(t.Graph(), j) - Outputs(c[k := Succeeded(output)]).Keys|
    {
      if k in b.submitted && j in Succs(t.dag.edges, k) { SuccessorsBlocked(t, c, blocked, k, j); }
      DegreeAfterSuccess(t, c, b, k, b', j);
      DegreeDrops(t, c, k, output, j);
    }
  }

  lemma DegreesAfterFailure(t: Task, c: map<Key, Conclusion>, b: Books, k: Key, x: Conclusion, marked: Books,
                            down: set<Key>, b': Books)
    requires k !in c && !x.Succeeded? && DegreesRestored(t, c, b)
    requires MarkedTerminal(b, k, [], marked) && SkippedTo(marked, down, b')
    ensures DegreesRestored(t, c[k := x], b')
  {
    OutputsGrow(c, k, x);
  }

  ghost predicate Restoring(t: Task, store: map<Key, NodeStatus>, c: map<Key, Conclusion>, blocked: set<Key>, v: Vars) {
    && v == Vars(Top, v.books, Outputs(c), SomeFailed(c), v.retryCount, map[], map[], {})
    && v.retryCount.Keys == t.dag.nodes.Keys && (forall k :: k in v.retryCount ==> v.retryCount[k] == 0)
    && BooksRestored(t, store, c, blocked, v.books)
  }

  lemma FreshDegrees(t: Task, b: Books)
    requires t.Valid() && b.inDegree == t.dag.inDegree
    ensures b.inDegree.Keys == t.dag.nodes.Keys && DegreesRestored(t, map[], b) && IsBlocked(t, map[], {})
  {
    assert Downstream(t.Graph(), map[]) == {};
    forall k | k in t.dag.nodes ensures Preds(t.Graph(), k) - Outputs(map[]).Keys == Preds(t.Graph(), k) {}
  }

  lemma StoreUntouched(store: map<Key, NodeStatus>)
    ensures StoreRestored(store, map[], {}, store)
  {
  }

  lemma FreshBooks(t: Task, b: Books, store: map<Key, NodeStatus>)
    requires t.Valid() && store.Keys == t.dag.nodes.Keys && b == Books(t.dag.inDegree, {}, |t.dag.nodes|, store)
    ensures BooksRestored(t, store, map[], {}, b)
  {
    var none: map<Key, Conclusion> := map[];
    FreshDegrees(t, b);
    StoreUntouched(store);
    assert none.Keys + {} == {};
    assert Counted(|store.Keys|, none, {}, b);
    hide WellFormed, DegreesRestored, IsBlocked, StoreRestored, Counted, Preds, Downstream;
  }

  lemma FreshRestoring(t: Task, v: Vars)
    requires t.Valid() && Fresh(t, v)
    ensures Restoring(t, v.books.store, map[], {}, v)
  {
    FreshBooks(t, v.books, v.books.store);
    hide WellFormed, BooksRestored;
  }

  lemma SucceededCounts(t: Task, store: map<Key, NodeStatus>, c: map<Key, Conclusion>, blocked: set<Key>, b: Books,
                        k: Key, x: Conclusion, b': Books)
    requires k in store && store[k] == Concluded(x) && x.Succeeded? && k !in c
    requires IsBlocked(t, c, blocked) && Counted(|store.Keys|, c, blocked, b)
      && StoreRestored(store, c, blocked, b.store)
    requires MarkedTerminal(b, k, Succs(t.dag.edges, k), b')
    ensures IsBlocked(t, c[k := x], blocked)
    ensures Counted(|store.Keys|, c[k := x], blocked, b') && StoreRestored(store, c[k := x], blocked, b'.store)
  {
    BlockedGrows(t, c, blocked, k, x, {});
    assert blocked + {} == blocked;
    CountMarked(|store.Keys|, c, blocked, b, k, x, Succs(t.dag.edges, k), b');
    StoreConcluded(store, c, blocked, b.store, k, x);
  }

  lemma RestoreSucceeded(t: Task, store: map<Key, NodeStatus>, c: map<Key, Conclusion>, blocked: set<Key>, b: Books,
                         k: Key, output: string, b': Books)
    requires t.Valid() && k in store && store[k] == Concluded(Succeeded(output)) && k !in c
    requires BooksRestored(t, store, c, blocked, b) && MarkedTerminal(b, k, Succs(t.dag.edges, k), b')
    ensures BooksRestored(t, store, c[k := Succeeded(output)], blocked, b')
  {
    SucceededCounts(t, store, c, blocked, b, k, Succeeded(output), b');
    DegreesAfterSuccess(t, c, blocked, b, k, output, b');
  }

  lemma RestoreBlocked(t: Task, store: map<Key, NodeStatus>, c: map<Key, Conclusion>, blocked: set<Key>, b: Books,
                       k: Key, x: Conclusion, marked: Books, down: set<Key>, b': Books)
    requires k in store && store[k] == Concluded(x) && !x.Succeeded? && k !in c && down <= store.Keys
    requires BooksRestored(t, store, c, blocked, b) && MarkedTerminal(b, k, [], marked)
    requires IsDownstream(t, k, down) && SkippedTo(marked, down, b')
    ensures BooksRestored(t, store, c[k := x], blocked + down, b')
  {
    BlockedGrows(t, c, blocked, k, x, down);
    CountMarked(|store.Keys|, c, blocked, b, k, x, [], marked);
    CountSkipped(|store.Keys|, c[k := x], blocked, marked, down, b');
    StoreConcluded(store, c, blocked, b.store, k, x);
    StoreSkipped(store, c[k := x], blocked, marked, down, b');
    DegreesAfterFailure(t, c, b, k, x, marked, down, b');
  }

  /** What reading back a conclusion does to the other variables. */
  ghost function ReadBack(v: Vars, k: Key, x: Conclusion, b: Books): Vars {
    v.(books := b, failed := v.failed || x.Failed?,
       results := if x.Succeeded? then v.results[k := x.output] else v.results)
  }

  lemma RestoringMore(t: Task, store: map<Key, NodeStatus>, c: map<Key, Conclusion>, blocked: set<Key>, v: Vars,
                      k: Key, x: Conclusion, blocked': set<Key>, b: Books)
    requires Restoring(t, store, c, blocked, v) && k !in c && BooksRestored(t, store, c[k := x], blocked', b)
    ensures Restoring(t, store, c[k := x], blocked', ReadBack(v, k, x, b))
  {
    OutputsGrow(c, k, x);
  }

  lemma SuccessRead(t: Task, store: map<Key, NodeStatus>, c: map<Key, Conclusion>, blocked: set<Key>, v: Vars,
                    k: Key, x: Conclusion, b: Books)
    requires t.Valid() && k in store && store[k] == Concluded(x) && x.Succeeded? && k !in c
    requires Restoring(t, store, c, blocked, v) && MarkedTerminal(v.books, k, Succs(t.dag.edges, k), b)
    ensures Restoring(t, store, c[k := x], blocked, ReadBack(v, k, x, b))
  {
    RestoreSucceeded(t, store, c, blocked, v.books, k, x.output, b);
    RestoringMore(t, store, c, blocked, v, k, x, blocked, b);
  }

  lemma BlockedRead(t: Task, store: map<Key, NodeStatus>, c: map<Key, Conclusion>, blocked: set<Key>, v: Vars,
                    k: Key, x: Conclusion, f: Flow, marked: Books, down: set<Key>, b: Books)
    requires k in store && store[k] == Concluded(x) && !x.Succeeded? && k !in c
    requires Restoring(t, store, c, blocked, v) && MarkedTerminal(v.books, k, [], marked)
    requires Both(marked, f) == ReadBack(v, k, x, marked)
    requires IsDownstream(t, k, down) && SkippedTo(marked, down, b)
    ensures Restoring(t, store, c[k := x], blocked + down, Both(b, f))
  {
    assert down == Descendants(t.Graph(), k);
    RestoreBlocked(t, store, c, blocked, v.books, k, x, marked, down, b);
    RestoringMore(t, store, c, blocked, v, k, x, blocked + down, b);
    assert Both(b, f) == Both(marked, f).(books := b);
  }

  lemma CountOpen(keys: set<Key>, submitted: set<Key>)
    requires submitted <= keys
    ensures |keys - submitted| == |keys| - |submitted|
  {
    assert keys == (keys - submitted) + submitted;
  }

  lemma RestoredOpen(t: Task, v: Vars)
    requires v.pool == map[] && v.done == map[] && v.retryTimers == {} && v.results.Keys <= v.books.submitted
    ensures WorldOf(t, v).Open() == t.dag.nodes.Keys - v.books.submitted
  {
  }

  lemma RestoredAgrees(t: Task, store: map<Key, NodeStatus>, blocked: set<Key>, v: Vars, k: Key)
    requires k in t.dag.nodes && Restoring(t, store, Stored(store), blocked, v)
    ensures RestoredNode(t, Stored(store), k, store[k], WorldOf(t, v).node[k])
  {
    assert k in blocked <==> k in Downstream(t.Graph(), Stored(store));
    assert WorldOf(t, v).node[k] == NodeOf(v, k);
  }

  lemma AllReadCoherent(t: Task, store: map<Key, NodeStatus>, blocked: set<Key>, v: Vars)
    requires Restoring(t, store, Stored(store), blocked, v)
    ensures Coherent(t, v)
  {
  }

  lemma AllReadAgrees(t: Task, store: map<Key, NodeStatus>, blocked: set<Key>, v: Vars)
    requires Restoring(t, store, Stored(store), blocked, v)
    ensures v.phase == Top && store.Keys == t.dag.nodes.Keys && v.failed == SomeFailed(Stored(store))
    ensures v.books.remaining == |WorldOf(t, v).Open()|
    ensures forall k :: k in t.dag.nodes ==> RestoredNode(t, Stored(store), k, store[k], WorldOf(t, v).node[k])
  {
    RestoredOpen(t, v);
    CountOpen(store.Keys, v.books.submitted);
    forall k | k in t.dag.nodes { RestoredAgrees(t, store, blocked, v, k); }
  }

  lemma RestoredIntro(t: Task, store: map<Key, NodeStatus>, w: World)
    requires w.phase == Top && store.Keys == w.node.Keys == t.dag.nodes.Keys
      && (w.failed <==> SomeFailed(Stored(store)))
    requires w.remaining == |w.Open()|
    requires forall k :: k in t.dag.nodes ==> RestoredNode(t, Stored(store), k, store[k], w.node[k])
    ensures Restored(t, store, w)
  {
    hide RestoredNode, Stored;
  }

  /** When all rows have been read, the variables describe the restored world. */
  lemma RestoredIsStep(t: Task, store: map<Key, NodeStatus>, blocked: set<Key>, v: Vars)
    requires Restoring(t, store, Stored(store), blocked, v)
    ensures Coherent(t, v) && Restored(t, store, WorldOf(t, v))
  {
    hide Restoring, Restored, RestoredNode, Coherent, Stored, NodeOf, SomeFailed;
    AllReadCoherent(t, store, blocked, v);
    AllReadAgrees(t, store, blocked, v);
    RestoredIntro(t, store, WorldOf(t, v));
  }

  // ---------- What a live loop reaches ----------

  /** The variables describe a world that a live loop reaches from `w0` in `n` steps. */
  ghost predicate Live(t: Task, w0: World, n: nat, v: Vars) {
    exists ws, steps :: Coherent(t, v) && LiveRun(t, ws, steps) && |steps| == n && ws[0] == w0 && ws[n] == WorldOf(t, v)
  }

  lemma LiveStart(t: Task, v: Vars)
    requires Coherent(t, v)
    ensures Live(t, WorldOf(t, v), 0, v)
  {
    assert LiveRun(t, [WorldOf(t, v)], []);
  }

  lemma LiveRunGoesOn(t: Task, ws: seq<World>, steps: seq<Step>, w: World, s: Step)
    requires LiveRun(t, ws, steps) && ws[|steps|].phase != Stopped && !s.Restart? && Next(t, ws[|steps|], w, s)
    ensures LiveRun(t, ws + [w], steps + [s])
  {
    hide Next;
  }

  lemma LiveMore(t: Task, w0: World, n: nat, v: Vars, v': Vars, s: Step)
    requires Live(t, w0, n, v) && Coherent(t, v') && v.phase != Stopped && !s.Restart?
    requires Next(t, WorldOf(t, v), WorldOf(t, v'), s)
    ensures Live(t, w0, n + 1, v')
  {
    hide Next, Coherent;
    var ws, steps :| LiveRun(t, ws, steps) && |steps| == n && ws[0] == w0 && ws[n] == WorldOf(t, v);
    LiveRunGoesOn(t, ws, steps, WorldOf(t, v'), s);
    assert LiveRun(t, ws + [WorldOf(t, v')], steps + [s]);
  }

  lemma LiveSubmit(t: Task, w0: World, n: nat, v: Vars, b: Vars)
    requires Live(t, w0, n, v) && v.phase == Top && v.books.remaining > 0 && SubmittedTo(t, v, ReadyKeys(t, v), b)
    ensures Live(t, w0, n + 1, b.(phase := AtSelect))
  {
    SubmitIsStep(t, v, b);
    SubmittedCoherent(t, v, b);
    LiveMore(t, w0, n, v, b.(phase := AtSelect), Submit);
  }

  lemma LiveFinish(t: Task, w0: World, n: nat, v: Vars, k: Key)
    requires Live(t, w0, n, v) && v.phase != Stopped && k in v.pool
    ensures Live(t, w0, n + 1, FinishedVars(t, v, k))
  {
    FinishCoherent(t, v, k);
    FinishIsStep(t, v, k);
    LiveMore(t, w0, n, v, FinishedVars(t, v, k), FinishNode(k));
  }

  lemma LiveFire(t: Task, w0: World, n: nat, v: Vars, k: Key)
    requires Live(t, w0, n, v) && v.phase != Stopped && k in v.retryTimers
    ensures Live(t, w0, n + 1, FiredVars(t, v, k))
  {
    FireMoves(t, v, k);
    FireIsStep(t, v, k);
    assert NodeOf(v, k).place.OnTimer? && WorldOf(t, v).node[k] == NodeOf(v, k);
    hide Coherent, NodeOf, FiredVars, Fire, Live, Moves, LiveRun;
    LiveMore(t, w0, n, v, FiredVars(t, v, k), FireTimer(k));
  }

  lemma LiveOutcome(t: Task, w0: World, n: nat, v: Vars, v': Vars, k: Key)
    requires t.Valid() && Live(t, w0, n, v) && v.phase == AtSelect && v.books.remaining > 0 && Outcomes(t, v, v', k)
    ensures Live(t, w0, n + 1, v') && Coherent(t, v')
    ensures v'.phase == Top || (v'.phase == Stopped && v'.books.remaining == 0)
  {
    hide WellFormed, Take, Coherent, WorldOf, LiveRun;
    OutcomeIsStep(t, v, v', k);
    LiveMore(t, w0, n, v, v', TakeOutcome(k));
  }

  lemma LiveEndOfContext(t: Task, w0: World, n: nat, v: Vars)
    requires Live(t, w0, n, v) && v.phase != Stopped && v.books.remaining > 0
    ensures Live(t, w0, n + 1, AbortedVars(t, v)) && Coherent(t, AbortedVars(t, v))
  {
    AbortIsStep(t, v);
    AbortedCoherent(t, v);
    hide AbortedVars, Coherent;
    LiveMore(t, w0, n, v, AbortedVars(t, v), AbortTask);
  }

  /** A live loop keeps the invariant and has only so many steps. */
  lemma LiveBound(t: Task, w0: World, n: nat, v: Vars)
    requires t.Valid() && Inv(t, w0) && Live(t, w0, n, v)
    ensures n <= Potential(t, w0) && Inv(t, WorldOf(t, v))
  {
    var ws, steps :| LiveRun(t, ws, steps) && |steps| == n && ws[0] == w0 && ws[n] == WorldOf(t, v);
    LoopTerminates(t, ws, steps);
  }

  lemma ActivePlace(v: Vars, k: Key)
    requires PlaceOf(v, k).Active()
    ensures k in v.done || k in v.pool || k in v.retryTimers
  {
  }

  /** At the select with work left there is an outcome to take, or a worker or a timer can move. */
  lemma LiveActive(t: Task, w0: World, n: nat, v: Vars)
    requires t.Valid() && Inv(t, w0) && Live(t, w0, n, v) && v.phase == AtSelect && v.books.remaining > 0
    ensures n <= Potential(t, w0)
    ensures v.done.Keys != {} || v.pool.Keys != {} || v.retryTimers != {}
  {
    LiveBound(t, w0, n, v);
    var k := SomeActive(t, WorldOf(t, v));
    ActivePlace(v, k);
  }

  /** When nothing remains, the outcome is the sequential one. */
  lemma LiveEnd(t: Task, w0: World, n: nat, v: Vars)
    requires t.Valid() && Inv(t, w0) && Live(t, w0, n, v) && v.phase != Stopped && v.books.remaining <= 0
    ensures SequentialOutcome(t, WorldOf(t, v))
  {
    LiveBound(t, w0, n, v);
    EndedIsRef(t, WorldOf(t, v));
  }
}
