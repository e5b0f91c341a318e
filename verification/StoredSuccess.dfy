/**
 A stored success is kept, and its node never runs again, over any steps and over restarts after cuts
 at any point, as long as approvals name nodes that wait for one.  Nothing here depends on what the
 nodes compute.  `SuccessCanBeReplaced` is a run with an approval of a node that does not wait.
 */
module StoredSuccess {
  import opened Sorting
  import opened Graphs
  import opened Dags
  import opened Evaluation
  import opened Execution
  import opened Refinement

  predicate IsSuccess(status: NodeStatus) {
    status.Concluded? && status.c.Succeeded?
  }

  /** A result is a stored success, and a node that is stored as succeeded has nothing left to do. */
  ghost predicate Settled(phase: Phase, n: NodeState) {
    && (n.place.HasResult? ==> n.status == Concluded(Succeeded(n.place.output)))
    && (n.place.Buffered? && n.place.outcome.Done? ==> n.status == Concluded(Succeeded(n.place.outcome.output)))
    && (n.place == Buffered(Fail) ==> n.status == Concluded(Failed))
    && (IsSuccess(n.status) ==> !n.place.InPool? && !n.place.OnTimer?)
    && (IsSuccess(n.status) && phase != Stopped ==> n.place.HasResult? || n.place.Buffered?)
  }

  ghost predicate AllSettled(w: World) {
    forall k {:trigger Settled(w.phase, w.node[k])} :: k in w.node ==> Settled(w.phase, w.node[k])
  }

  /** All predecessors of the node are stored as succeeded. */
  ghost predicate FedIn(t: Task, store: map<Key, NodeStatus>, k: Key) {
    forall p :: p in Preds(t.Graph(), k) ==> p in store && IsSuccess(store[p])
  }

  /** Whoever is stored as succeeded or waiting had all its predecessors' successes. */
  ghost predicate StoreFed(t: Task, store: map<Key, NodeStatus>) {
    forall k :: k in store && (IsSuccess(store[k]) || store[k] == Waiting) ==> FedIn(t, store, k)
  }

  ghost predicate Kept(t: Task, w: World) {
    && w.node.Keys == t.dag.nodes.Keys
    && AllSettled(w) && Fed(t, w) && StoreFed(t, w.Store())
    && (w.phase != Stopped ==> Degrees(t, w))
  }

  // ---------- Steps that leave the results alone ----------

  /** What such a step must respect in one node; `phase` is the phase after it. */
  ghost predicate Careful(t: Task, w: World, phase: Phase, k: Key, n: NodeState, n': NodeState) {
    && Settled(phase, n')
    && (n'.place.HasResult? <==> n.place.HasResult?) && (n.place.HasResult? ==> n'.place == n.place)
    && (n'.place.Unsubmitted? ==> n.place.Unsubmitted? && n'.inDegree == n.inDegree)
    && (n'.place.Active() ==> n.place.Active() || Preds(t.Graph(), k) <= w.Results().Keys)
    && (IsSuccess(n.status) ==> n'.status == n.status)
    && (n'.status != n.status && (IsSuccess(n'.status) || n'.status == Waiting) ==> FedIn(t, w.Store(), k))
  }

  /** No stored success is lost or changed. */
  ghost predicate KeepsSuccess(w: World, w': World) {
    forall k :: k in w.node && IsSuccess(w.node[k].status) ==> k in w'.node && w'.node[k].status == w.node[k].status
  }

  ghost predicate CarefulStep(t: Task, w: World, w': World) {
    && w'.node.Keys == w.node.Keys && (w.phase == Stopped ==> w'.phase == Stopped)
    && forall k :: k in w.node ==> Careful(t, w, w'.phase, k, w.node[k], w'.node[k])
  }

  lemma CarefulResults(t: Task, w: World, w': World)
    requires CarefulStep(t, w, w')
    ensures w'.Results() == w.Results()
  {
    forall k | k in w.node ensures w'.node[k].place.HasResult? <==> w.node[k].place.HasResult? {}
  }

  lemma CarefulStore(t: Task, w: World, w': World)
    requires CarefulStep(t, w, w') && StoreFed(t, w.Store())
    ensures StoreFed(t, w'.Store())
  {
    forall k | k in w'.Store() && (IsSuccess(w'.Store()[k]) || w'.Store()[k] == Waiting)
      ensures FedIn(t, w'.Store(), k)
    {
      assert FedIn(t, w.Store(), k);
      forall p | p in Preds(t.Graph(), k) ensures p in w'.Store() && IsSuccess(w'.Store()[p]) {
        assert p in w.Store();
      }
    }
  }

  lemma CarefulKept(t: Task, w: World, w': World)
    requires Kept(t, w) && CarefulStep(t, w, w')
    ensures Kept(t, w') && KeepsSuccess(w, w')
  {
    CarefulResults(t, w, w');
    CarefulStore(t, w, w');
    hide FedIn, StoreFed, Settled, Preds;
  }

  /** A node in flight has its predecessors' successes in the store. */
  lemma InFlightFed(t: Task, w: World, k: Key)
    requires Kept(t, w) && k in w.node && w.node[k].place.Active()
    ensures FedIn(t, w.Store(), k)
  {
    forall p | p in Preds(t.Graph(), k) ensures p in w.Store() && IsSuccess(w.Store()[p]) {
      assert p in w.Results();
      assert Settled(w.phase, w.node[p]);
    }
  }

  /** A node that nothing happens to. */
  lemma SameNode(t: Task, w: World, phase: Phase, k: Key)
    requires Kept(t, w) && k in w.node && (w.phase == Stopped ==> phase == Stopped)
    ensures Careful(t, w, phase, k, w.node[k], w.node[k])
  {
    assert Settled(w.phase, w.node[k]);
  }

  lemma OneKept(t: Task, w: World, k: Key, n: NodeState, w': World)
    requires Kept(t, w) && k in w.node && w'.node == w.node[k := n] && (w.phase == Stopped ==> w'.phase == Stopped)
    requires Careful(t, w, w'.phase, k, w.node[k], n)
    ensures Kept(t, w') && KeepsSuccess(w, w')
  {
    hide Kept, Careful;
    forall j | j in w.node ensures Careful(t, w, w'.phase, j, w.node[j], w'.node[j]) {
      SameNode(t, w, w'.phase, j);
    }
    CarefulKept(t, w, w');
  }

  lemma BegunKept(t: Task, w: World, k: Key)
    requires Kept(t, w) && k in w.node && w.node[k].place.InPool?
    ensures Kept(t, Put(w, k, w.node[k].(status := Running)))
      && KeepsSuccess(w, Put(w, k, w.node[k].(status := Running)))
  {
    assert Settled(w.phase, w.node[k]);
    OneKept(t, w, k, w.node[k].(status := Running), Put(w, k, w.node[k].(status := Running)));
  }

  lemma FinishKept(t: Task, w: World, k: Key)
    requires Kept(t, w) && k in w.node && w.node[k].place.InPool?
    ensures Kept(t, Finish(t, w, k)) && KeepsSuccess(w, Finish(t, w, k))
  {
    assert Settled(w.phase, w.node[k]);
    InFlightFed(t, w, k);
    hide FedIn;
    OneKept(t, w, k, Finish(t, w, k).node[k], Finish(t, w, k));
  }

  lemma FireKept(t: Task, w: World, k: Key)
    requires Kept(t, w) && k in w.node && w.node[k].place.OnTimer?
    ensures Kept(t, Fire(t, w, k)) && KeepsSuccess(w, Fire(t, w, k))
  {
    assert Settled(w.phase, w.node[k]);
    hide FedIn, NewJob;
    OneKept(t, w, k, Fire(t, w, k).node[k], Fire(t, w, k));
  }

  lemma StoppedKept(t: Task, w: World, w': World, s: Step)
    requires Kept(t, w) && Next(t, w, w', s) && (s.Drop? || (s.ApproveNode? && Due(w, s.k)))
    ensures Kept(t, w') && KeepsSuccess(w, w')
  {
    assert Settled(w.phase, w.node[s.k]);
    assert w.node[s.k].status == Waiting ==> FedIn(t, w.Store(), s.k);
    OneKept(t, w, s.k, w'.node[s.k], w');
  }

  lemma SubmittedCareful(t: Task, w: World, k: Key, n: NodeState, job: Job)
    requires Settled(Top, n) && IsReady(n) && Preds(t.Graph(), k) <= w.Results().Keys
    ensures Careful(t, w, AtSelect, k, n, n.(place := InPool(job)))
  {
    hide FedIn, Preds;
  }

  lemma SubmittedNode(t: Task, w: World, k: Key)
    requires Kept(t, w) && w.phase == Top && k in w.node
    ensures Careful(t, w, AtSelect, k, w.node[k], SubmitReady(t, w).node[k])
  {
    SameNode(t, w, AtSelect, k);
    if IsReady(w.node[k]) {
      assert Settled(w.phase, w.node[k]);
      assert |Preds(t.Graph(), k) - w.Results().Keys| == 0;
      hide Kept, Careful, Preds, Settled, NewJob;
      EmptyDifference(Preds(t.Graph(), k), w.Results().Keys);
      SubmittedCareful(t, w, k, w.node[k], NewJob(t, w, k, w.node[k].retries));
    }
    hide Kept, Careful, NewJob;
  }

  lemma SubmitKept(t: Task, w: World)
    requires Kept(t, w) && w.phase == Top
    ensures Kept(t, SubmitReady(t, w)) && KeepsSuccess(w, SubmitReady(t, w))
  {
    hide Kept, Careful;
    forall k | k in w.node ensures Careful(t, w, AtSelect, k, w.node[k], SubmitReady(t, w).node[k]) {
      SubmittedNode(t, w, k);
    }
    CarefulKept(t, w, SubmitReady(t, w));
  }

  lemma AbortedNode(t: Task, w: World, k: Key)
    requires Kept(t, w) && w.phase != Stopped && k in w.node
    ensures Careful(t, w, Stopped, k, w.node[k], Abort(w).node[k])
  {
    assert Settled(w.phase, w.node[k]);
  }

  lemma AbortKept(t: Task, w: World)
    requires Kept(t, w) && w.phase != Stopped
    ensures Kept(t, Abort(w)) && KeepsSuccess(w, Abort(w))
  {
    hide Kept, Careful;
    forall k | k in w.node ensures Careful(t, w, Stopped, k, w.node[k], Abort(w).node[k]) {
      AbortedNode(t, w, k);
    }
    CarefulKept(t, w, Abort(w));
  }

  // ---------- Taking an outcome ----------

  lemma TakeDoneSettled(t: Task, w: World, k: Key, o: string)
    requires AllSettled(w) && w.phase == AtSelect && k in w.node && w.node[k].place == Buffered(Done(o))
    ensures AllSettled(TakeDone(t, w, k, o)) && TakeDone(t, w, k, o).Store() == w.Store()
  {
    var w' := TakeDone(t, w, k, o);
    forall j | j in w'.node ensures Settled(w'.phase, w'.node[j]) { assert Settled(w.phase, w.node[j]); }
  }

  lemma TakeDoneKept(t: Task, w: World, k: Key, o: string)
    requires t.Valid() && Kept(t, w) && w.phase == AtSelect && k in w.node && w.node[k].place == Buffered(Done(o))
    ensures Kept(t, TakeDone(t, w, k, o)) && KeepsSuccess(w, TakeDone(t, w, k, o))
  {
    TakeDoneFed(t, w, k, o);
    TakeDoneDegrees(t, w, k, o);
    TakeDoneSettled(t, w, k, o);
    assert TakeDone(t, w, k, o).node.Keys == w.node.Keys;
    hide Fed, Degrees, AllSettled, StoreFed, WellFormed, TakeDone;
  }

  lemma FailedCareful(t: Task, w: World, j: Key, n: NodeState, n': NodeState)
    requires Settled(AtSelect, n)
    requires n' == n || SkippedNode(n, n') || (n.place == Buffered(Fail) && n' == n.(place := Blocked))
    ensures Careful(t, w, Top, j, n, n')
  {
    hide FedIn, Preds;
  }

  lemma FailedNode(t: Task, w: World, w': World, k: Key, j: Key)
    requires Kept(t, w) && w.phase == AtSelect && k in w.node && w.node[k].place == Buffered(Fail) && j in w.node
    requires SkipDownstream(t, FailedOnce(w, k), k, w')
    ensures j in w'.node && Careful(t, w, Top, j, w.node[j], w'.node[j])
  {
    assert Settled(w.phase, w.node[j]);
    assert FailedOnce(w, k).node[j] == if j == k then w.node[j].(place := Blocked) else w.node[j];
    hide Kept, FedIn, Preds, Settled, Careful, Descendants;
    if j == k && SkippedNode(w.node[j].(place := Blocked), w'.node[j]) {
      FailedSelf(t, w, j, w.node[j], w'.node[j]);
    } else {
      FailedCareful(t, w, j, w.node[j], w'.node[j]);
    }
  }

  lemma FailedSelf(t: Task, w: World, j: Key, n: NodeState, n': NodeState)
    requires Settled(AtSelect, n) && n.place == Buffered(Fail) && SkippedNode(n.(place := Blocked), n')
    ensures Careful(t, w, Top, j, n, n')
  {
    hide FedIn, Preds;
  }

  lemma FailKept(t: Task, w: World, w': World, k: Key)
    requires Kept(t, w) && w.phase == AtSelect && k in w.node && w.node[k].place == Buffered(Fail)
    requires SkipDownstream(t, FailedOnce(w, k), k, w')
    ensures Kept(t, w') && KeepsSuccess(w, w')
  {
    assert w'.phase == Top && w'.node.Keys == w.node.Keys;
    hide Kept, Careful, SkipDownstream;
    forall j | j in w.node ensures Careful(t, w, Top, j, w.node[j], w'.node[j]) {
      FailedNode(t, w, w', k, j);
    }
    CarefulKept(t, w, w');
  }

  lemma PauseKept(t: Task, w: World, w': World, k: Key)
    requires Kept(t, w) && k in w.node && w.node[k].place == Buffered(AwaitApproval)
    requires w'.phase == Stopped && w'.node == w.node[k := w.node[k].(place := Blocked)]
    ensures Kept(t, w') && KeepsSuccess(w, w')
  {
    assert Settled(w.phase, w.node[k]);
    OneKept(t, w, k, w.node[k].(place := Blocked), w');
  }

  lemma RetryKept(t: Task, w: World, k: Key)
    requires Kept(t, w) && w.phase == AtSelect && k in w.node && w.node[k].place == Buffered(Fail)
    ensures Kept(t, TakeRetry(w, k)) && KeepsSuccess(w, TakeRetry(w, k))
  {
    assert Settled(w.phase, w.node[k]);
    OneKept(t, w, k, Retried(w.node[k]), TakeRetry(w, k));
  }

  lemma TakeKept(t: Task, w: World, w': World, k: Key)
    requires t.Valid() && Kept(t, w) && Take(t, w, w', k)
    ensures Kept(t, w') && KeepsSuccess(w, w')
  {
    hide Kept;
    match w.node[k].place.outcome
    case Done(o) => TakeDoneKept(t, w, k, o);
    case AwaitApproval => PauseKept(t, w, w', k);
    case Fail =>
      if ShouldRetry(t.MaxRetry(k), w.node[k].retries) { RetryKept(t, w, k); } else { FailKept(t, w, w', k); }
  }

  // ---------- Restarting ----------

  /** Nothing downstream of a node without a success is stored as succeeded or waiting. */
  lemma DownstreamUnfed(t: Task, store: map<Key, NodeStatus>, b: Key)
    requires t.Valid() && store.Keys == t.dag.nodes.Keys && StoreFed(t, store)
      && b in Downstream(t.Graph(), Stored(store))
    ensures !IsSuccess(store[b]) && store[b] != Waiting
  {
    var g := t.Graph();
    var a :| a in Stored(store) && !Stored(store)[a].Succeeded? && Reaches(g, a, b);
    var unfed := set k | k in store && !IsSuccess(store[k]) && store[k] != Waiting;
    forall s, k | (s, k) in g.edges && (s == a || s in unfed) ensures k in unfed {
      assert s in Preds(g, k);
      assert k !in unfed ==> FedIn(t, store, k);
    }
    ClosedUnderEdges(g, a, unfed);
  }

  lemma RestartedNode(t: Task, store: map<Key, NodeStatus>, k: Key, n: NodeState)
    requires t.Valid() && store.Keys == t.dag.nodes.Keys && StoreFed(t, store) && k in store
    requires RestoredNode(t, Stored(store), k, store[k], n)
    ensures Settled(Top, n) && !n.place.Active()
    ensures n.place.HasResult? <==> k in Outputs(Stored(store))
    ensures n.place.HasResult? ==> n.place.output == Outputs(Stored(store))[k]
    ensures n.status == store[k] || (n.status == Concluded(Skipped) && !IsSuccess(store[k]))
  {
    if k in Downstream(t.Graph(), Stored(store)) { DownstreamUnfed(t, store, k); }
  }

  lemma RestartedNodes(t: Task, store: map<Key, NodeStatus>, w': World)
    requires t.Valid() && StoreFed(t, store) && Restored(t, store, w')
    ensures AllSettled(w') && w'.Results() == Outputs(Stored(store))
    ensures forall k :: k in store ==>
      && !w'.node[k].place.Active()
      && (w'.node[k].status == store[k] || (w'.node[k].status == Concluded(Skipped) && !IsSuccess(store[k])))
  {
    hide WellFormed, StoreFed, Settled;
    forall k | k in w'.node
      ensures Settled(Top, w'.node[k]) && !w'.node[k].place.Active()
      ensures w'.node[k].status == store[k] || (w'.node[k].status == Concluded(Skipped) && !IsSuccess(store[k]))
    {
      RestartedNode(t, store, k, w'.node[k]);
    }
    RestartedResults(t, store, w');
  }

  lemma RestartedResults(t: Task, store: map<Key, NodeStatus>, w': World)
    requires t.Valid() && StoreFed(t, store) && Restored(t, store, w')
    ensures w'.Results() == Outputs(Stored(store))
  {
    hide WellFormed, StoreFed, Settled;
    forall k | k in w'.node
      ensures w'.node[k].place.HasResult? <==> k in Outputs(Stored(store))
      ensures w'.node[k].place.HasResult? ==> w'.node[k].place.output == Outputs(Stored(store))[k]
    {
      RestartedNode(t, store, k, w'.node[k]);
    }
    assert Outputs(Stored(store)).Keys <= store.Keys;
  }

  lemma RestartKept(t: Task, store: map<Key, NodeStatus>, w': World)
    requires t.Valid() && StoreFed(t, store) && Restored(t, store, w')
    ensures Kept(t, w')
    ensures forall k :: k in store && IsSuccess(store[k]) ==> w'.node[k].status == store[k]
  {
    RestartedNodes(t, store, w');
    RestoredDegrees(t, store, w');
    RestartFed(t, store, w'.Store());
    hide StoreFed, AllSettled, Degrees, WellFormed, RestoredNode;
  }

  lemma RestartFed(t: Task, store: map<Key, NodeStatus>, store': map<Key, NodeStatus>)
    requires StoreFed(t, store) && store'.Keys == store.Keys
    requires forall k :: k in store ==>
      store'[k] == store[k] || (store'[k] == Concluded(Skipped) && !IsSuccess(store[k]))
    ensures StoreFed(t, store')
  {
    forall k | k in store' && (IsSuccess(store'[k]) || store'[k] == Waiting) ensures FedIn(t, store', k) {
      assert FedIn(t, store, k);
    }
  }

  // ---------- Runs ----------

  lemma NextKept(t: Task, w: World, w': World, s: Step)
    requires t.Valid() && Kept(t, w) && Next(t, w, w', s) && (s.ApproveNode? ==> Due(w, s.k))
    ensures Kept(t, w') && KeepsSuccess(w, w')
  {
    assert StoreFed(t, w.Store());
    hide Kept, WellFormed, Restored, Take, SkipDownstream;
    match s
    case Submit => SubmitKept(t, w);
    case TakeOutcome(k) => TakeKept(t, w, w', k);
    case AbortTask => AbortKept(t, w);
    case Restart => RestartKept(t, w.Store(), w');
    case Drop(_) => StoppedKept(t, w, w', s);
    case ApproveNode(_) => StoppedKept(t, w, w', s);
    case Start(k) => BegunKept(t, w, k);
    case FinishNode(k) => FinishKept(t, w, k);
    case FireTimer(k) => FireKept(t, w, k);
  }

  lemma {:induction false} RunKept(t: Task, ws: seq<World>, steps: seq<Step>, i: nat)
    requires t.Valid() && Run(t, ws, steps) && i < |ws| && ApprovalsDue(ws, steps, i)
    ensures Kept(t, ws[i])
  {
    if i == 0 {
      RestartKept(t, AllPending(t), ws[0]);
    } else {
      RunKept(t, ws, steps, i - 1);
      NextKept(t, ws[i - 1], ws[i - 1 + 1], steps[i - 1]);
    }
  }

  lemma SucceededIdle(t: Task, ws: seq<World>, steps: seq<Step>, i: nat, k: Key)
    requires t.Valid() && Run(t, ws, steps) && i < |ws| && ApprovalsDue(ws, steps, i)
    requires k in ws[i].node && IsSuccess(ws[i].node[k].status)
    ensures !ws[i].node[k].place.InPool? && !ws[i].node[k].place.OnTimer?
  {
    RunKept(t, ws, steps, i);
    assert Settled(ws[i].phase, ws[i].node[k]);
  }

  lemma SuccessAtStep(t: Task, ws: seq<World>, steps: seq<Step>, i: nat, k: Key)
    requires t.Valid() && Run(t, ws, steps) && i < |steps| && ApprovalsDue(ws, steps, i + 1)
    requires k in ws[i].node && IsSuccess(ws[i].node[k].status)
    ensures k in ws[i + 1].node && ws[i + 1].node[k].status == ws[i].node[k].status
  {
    RunKept(t, ws, steps, i);
    NextKept(t, ws[i], ws[i + 1], steps[i]);
  }

  /** From the moment a node's success is stored it stays stored, and the node is never in the pool again. */
  lemma {:induction false} SucceededNeverRunsAgain(t: Task, ws: seq<World>, steps: seq<Step>, i: nat, j: nat, k: Key)
    requires t.Valid() && Run(t, ws, steps) && i <= j < |ws| && ApprovalsDue(ws, steps, j)
    requires k in ws[i].node && IsSuccess(ws[i].node[k].status)
    ensures k in ws[j].node && ws[j].node[k].status == ws[i].node[k].status
    ensures !ws[j].node[k].place.InPool? && !ws[j].node[k].place.OnTimer?
    decreases j
  {
    assert |ws| == |steps| + 1;
    hide *;
    if i < j {
      SucceededNeverRunsAgain(t, ws, steps, i, j - 1, k);
      SuccessAtStep(t, ws, steps, j - 1, k);
    }
    SucceededIdle(t, ws, steps, j, k);
  }

  // ---------- The condition on approvals cannot be dropped ----------

  /** In any run that has stopped, an approval of a node that is stored as succeeded replaces what is stored. */
  lemma UndueApprovalReplaces(t: Task, ws: seq<World>, steps: seq<Step>, k: Key) returns (w: World)
    requires Run(t, ws, steps) && ws[|steps|].phase == Stopped
    requires k in ws[|steps|].node && IsSuccess(ws[|steps|].node[k].status)
    ensures Run(t, ws + [w], steps + [ApproveNode(k)]) && !ApprovalsDue(ws + [w], steps + [ApproveNode(k)], |steps| + 1)
    ensures k in w.node && w.node[k].status == Concluded(Decided(t.decide(k)))
  {
    var before := ws[|steps|];
    w := Put(before, k, before.node[k].(status := Concluded(Decided(t.decide(k)))));
    var ws', steps' := RunOn(t, ws, steps, w, ApproveNode(k));
    assert (steps + [ApproveNode(k)])[|steps|] == ApproveNode(k) && (ws + [w])[|steps|] == before;
    assert !Due(before, k);
  }

  /** A tool "a" that succeeds and an approval "b", side by side; whoever is asked says no. */
  ghost function PairTask(): Task {
    Task(Dag(map["a" := Node("a", "tool", 0), "b" := Node("b", "approval", 0)], map[], map["a" := 0, "b" := 0],
             ["a", "b"]),
         "", (k, input, n) => Output("ok"), k => Reject)
  }

  ghost function PairWorld(phase: Phase, remaining: int, a: NodeState, b: NodeState): World {
    World(phase, remaining, false, map["a" := a, "b" := b])
  }

  lemma PairValid()
    ensures PairTask().Valid() && forall k :: Preds(PairTask().Graph(), k) == {}
    ensures AssembledInput(PairTask().dag, "a", map[], "") == "" && AssembledInput(PairTask().dag, "b", map[], "") == ""
  {
    var d := PairTask().dag;
    var g := DagGraph(d);
    assert g.edges == {};
    assert Elems(d.order) == {"a", "b"};
    InputKeysArePreds(d, "a");
    InputKeysArePreds(d, "b");
    assert InputKeys(d, "a") == [] && InputKeys(d, "b") == [];
  }

  lemma PairRestored(n: NodeState, k: Key)
    requires n == NodeState(Unsubmitted, 0, 0, Pending)
    ensures RestoredNode(PairTask(), map[], k, Pending, n)
  {
    PairValid();
    assert Preds(PairTask().Graph(), k) - Outputs(map[]).Keys == {};
    hide Preds, Task.Valid, AssembledInput;
  }

  lemma PairOpen(n: NodeState)
    requires n == NodeState(Unsubmitted, 0, 0, Pending)
    ensures |PairWorld(Top, 2, n, n).Open()| == 2
  {
    assert PairWorld(Top, 2, n, n).Open() == {"a", "b"};
  }

  lemma PairStarts(n: NodeState)
    requires n == NodeState(Unsubmitted, 0, 0, Pending)
    ensures Restored(PairTask(), AllPending(PairTask()), PairWorld(Top, 2, n, n))
  {
    assert Stored(AllPending(PairTask())) == map[];
    PairOpen(n);
    PairRestored(n, "a");
    PairRestored(n, "b");
    hide RestoredNode, World.Open, Stored;
  }

  lemma PairSubmits(n: NodeState, p: NodeState)
    requires n == NodeState(Unsubmitted, 0, 0, Pending) && p == NodeState(InPool(Job("", 0)), 0, 0, Pending)
    ensures Next(PairTask(), PairWorld(Top, 2, n, n), PairWorld(AtSelect, 2, p, p), Submit)
  {
    PairValid();
    var t, w := PairTask(), PairWorld(Top, 2, n, n);
    assert w.Results() == map[];
    hide AssembledInput;
    assert SubmitReady(t, w).node == map["a" := p, "b" := p];
  }

  lemma PairFinishes(p: NodeState, a: NodeState, b: NodeState)
    requires p == NodeState(InPool(Job("", 0)), 0, 0, Pending) && b == NodeState(Buffered(AwaitApproval), 0, 0, Waiting)
    requires a == NodeState(Buffered(Done("ok")), 0, 0, Concluded(Succeeded("ok")))
    ensures Next(PairTask(), PairWorld(AtSelect, 2, p, p), PairWorld(AtSelect, 2, a, p), FinishNode("a"))
    ensures Next(PairTask(), PairWorld(AtSelect, 2, a, p), PairWorld(AtSelect, 2, a, b), FinishNode("b"))
    ensures Next(PairTask(), PairWorld(AtSelect, 2, a, b), PairWorld(Stopped, 0, a, b.(place := Blocked)),
      TakeOutcome("b"))
  {
    var t := PairTask();
    assert Finish(t, PairWorld(AtSelect, 2, p, p), "a").node == map["a" := a, "b" := p];
    assert Finish(t, PairWorld(AtSelect, 2, a, p), "b").node == map["a" := a, "b" := b];
    assert Put(PairWorld(AtSelect, 2, a, b), "b", b.(place := Blocked)).node
      == map["a" := a, "b" := b.(place := Blocked)];
  }

  lemma PairRun(a: NodeState, b: NodeState) returns (ws: seq<World>, steps: seq<Step>)
    requires a == NodeState(Buffered(Done("ok")), 0, 0, Concluded(Succeeded("ok")))
    requires b == NodeState(Buffered(AwaitApproval), 0, 0, Waiting)
    ensures Run(PairTask(), ws, steps) && ws[|steps|] == PairWorld(Stopped, 0, a, b.(place := Blocked))
  {
    var t := PairTask();
    var n, p := NodeState(Unsubmitted, 0, 0, Pending), NodeState(InPool(Job("", 0)), 0, 0, Pending);
    PairStarts(n);
    PairSubmits(n, p);
    PairFinishes(p, a, b);
    ws, steps := [PairWorld(Top, 2, n, n)], [];
    assert Run(t, ws, steps);
    hide *;
    ws, steps := RunOn(t, ws, steps, PairWorld(AtSelect, 2, p, p), Submit);
    ws, steps := RunOn(t, ws, steps, PairWorld(AtSelect, 2, a, p), FinishNode("a"));
    ws, steps := RunOn(t, ws, steps, PairWorld(AtSelect, 2, a, b), FinishNode("b"));
    ws, steps := RunOn(t, ws, steps, PairWorld(Stopped, 0, a, b.(place := Blocked)), TakeOutcome("b"));
  }

  /** A run that stores a success and then, by an approval of that very node, a failure. */
  lemma SuccessCanBeReplaced() returns (t: Task, ws: seq<World>, steps: seq<Step>, i: nat)
    ensures t.Valid() && Run(t, ws, steps) && i <= |steps|
    ensures "a" in ws[i].node && ws[i].node["a"].status == Concluded(Succeeded("ok"))
    ensures "a" in ws[|steps|].node && ws[|steps|].node["a"].status == Concluded(Failed)
  {
    t := PairTask();
    PairValid();
    ws, steps := PairRun(NodeState(Buffered(Done("ok")), 0, 0, Concluded(Succeeded("ok"))),
      NodeState(Buffered(AwaitApproval), 0, 0, Waiting));
    hide Run, Next, Task.Valid;
    i := |steps|;
    var w := UndueApprovalReplaces(t, ws, steps, "a");
    ws, steps := ws + [w], steps + [ApproveNode("a")];
  }
}
