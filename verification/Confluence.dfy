/**
 The main results about `executeTask`: every completion order and every chain of restarts ends with
 the sequential result, nothing that succeeded runs again, the loop always has something to wait
 for, and it ends.
 */
module Confluence {
  import opened Sorting
  import opened Graphs
  import opened Dags
  import opened Evaluation
  import opened Execution
  import opened Refinement

  /** The loop ended normally: `remaining` reached zero without a pause or an abort. */
  predicate Ended(w: World) {
    w.phase != Stopped && w.remaining == 0
  }

  ghost function RefStore(t: Task): map<Key, NodeStatus>
    requires t.Valid()
  {
    map k | k in Ref(t) :: Concluded(Ref(t)[k])
  }

  ghost predicate SomeFailed(c: map<Key, Conclusion>) {
    exists k :: k in c && c[k] == Failed
  }

  /** What a task is reported as; stopped is waiting for an approval, cancelled or aborted. */
  datatype TaskEnd = TaskSucceeded(output: string) | TaskFailed | TaskStopped

  /** What evaluating the nodes one by one reports. */
  ghost function RefEnd(t: Task): TaskEnd
    requires t.Valid()
  {
    if SomeFailed(Ref(t)) then TaskFailed else TaskSucceeded(TaskOutput(t.dag, Outputs(Ref(t))))
  }

  /** Results, failure and stored node states all equal the sequential ones. */
  ghost predicate SequentialOutcome(t: Task, w: World)
    requires t.Valid()
  {
    && w.Results() == Outputs(Ref(t))
    && (w.failed <==> SomeFailed(Ref(t)))
    && w.Store() == RefStore(t)
  }

  lemma EndedNode(t: Task, w: World, k: Key)
    requires t.Valid() && Inv(t, w) && Ended(w) && k in w.node
    ensures w.node[k].status == Concluded(RefOf(t, k))
    ensures w.node[k].place.HasResult? <==> RefOf(t, k).Succeeded?
    ensures w.node[k].place.HasResult? ==> RefOf(t, k) == Succeeded(w.node[k].place.output)
    ensures w.node[k].place.Blocked? <==> !RefOf(t, k).Succeeded?
  {
    assert NodeOk(t, w.phase, k, w.node[k]);
    assert w.Open() == {} && k !in w.Open();
  }

  lemma EndedResult(t: Task, w: World, k: Key)
    requires t.Valid() && Inv(t, w) && Ended(w)
    ensures k in w.Results() <==> k in Outputs(Ref(t))
    ensures k in w.Results() ==> w.Results()[k] == Outputs(Ref(t))[k]
  {
    assert w.node.Keys == t.dag.nodes.Keys;
    if k in w.node { EndedNode(t, w, k); }
  }

  lemma EndedResults(t: Task, w: World)
    requires t.Valid() && Inv(t, w) && Ended(w)
    ensures w.Results() == Outputs(Ref(t))
  {
    hide *;
    forall k
      ensures k in w.Results() <==> k in Outputs(Ref(t))
      ensures k in w.Results() ==> w.Results()[k] == Outputs(Ref(t))[k]
    {
      EndedResult(t, w, k);
    }
  }

  lemma EndedStore(t: Task, w: World)
    requires t.Valid() && Inv(t, w) && Ended(w)
    ensures w.Store() == RefStore(t)
  {
    assert w.node.Keys == t.dag.nodes.Keys;
    hide Inv;
    forall k | k in w.node ensures w.node[k].status == Concluded(RefOf(t, k)) {
      EndedNode(t, w, k);
    }
  }

  lemma EndedFailed(t: Task, w: World)
    requires t.Valid() && Inv(t, w) && Ended(w)
    ensures w.failed <==> SomeFailed(Ref(t))
  {
    forall k | k in Ref(t) && Ref(t)[k] == Failed ensures w.Blocks(k) && RefOf(t, k) == Failed {
      EndedNode(t, w, k);
    }
  }

  lemma EndedIsRef(t: Task, w: World)
    requires t.Valid() && Inv(t, w) && Ended(w)
    ensures SequentialOutcome(t, w)
  {
    EndedResults(t, w);
    EndedStore(t, w);
    EndedFailed(t, w);
  }

  /**
   Concurrent execution refines sequential evaluation.  Whatever the order in which workers, timers
   and the loop move, and however often the task is cut, paused for approval and restarted, a run
   that ends has the outcome of evaluating the nodes one by one in topological order, as long as
   approvals name waiting nodes and no cut loses a retry.
   */
  lemma RunRefinesSequential(t: Task, ws: seq<World>, steps: seq<Step>)
    requires t.Valid() && Run(t, ws, steps) && Ended(ws[|steps|])
    requires ApprovalsDue(ws, steps, |steps|) && NoRetryLost(t, ws, steps, |steps|)
    ensures SequentialOutcome(t, ws[|steps|])
  {
    RunInv(t, ws, steps, |steps|);
    EndedIsRef(t, ws[|steps|]);
  }

  /** At the end a node is stored as skipped exactly when a node upstream of it is stored as failed. */
  lemma EndedSkipsExactly(t: Task, ws: seq<World>, steps: seq<Step>, k: Key)
    requires t.Valid() && Run(t, ws, steps) && Ended(ws[|steps|])
    requires ApprovalsDue(ws, steps, |steps|) && NoRetryLost(t, ws, steps, |steps|)
    requires k in t.dag.nodes
    ensures var store := ws[|steps|].Store();
      && k in store && store[k].Concluded?
      && (store[k] == Concluded(Skipped) <==>
            exists a :: Reaches(t.Graph(), a, k) && a in store && store[a] == Concluded(Failed))
  {
    RunRefinesSequential(t, ws, steps);
    SkippedIffAncestorFailed(t, k);
    var store := ws[|steps|].Store();
    forall a ensures a in store && store[a] == Concluded(Failed) <==> a in t.dag.nodes && Ref(t)[a] == Failed {}
  }

  /** Exact accounting at every point of every run outside the pause and abort exits. */
  lemma Accounting(t: Task, ws: seq<World>, steps: seq<Step>, i: nat, k: Key)
    requires t.Valid() && Run(t, ws, steps) && i < |ws| && ApprovalsDue(ws, steps, i) && NoRetryLost(t, ws, steps, i)
    requires ws[i].phase != Stopped && k in t.dag.nodes
    ensures var w := ws[i];
      && k in w.node && w.remaining == |w.Open()|
      && (w.node[k].place.Unsubmitted? ==> w.node[k].inDegree == |Preds(t.Graph(), k) - w.Results().Keys|)
      && (w.node[k].place.Through() ==> w.node[k].status == Concluded(Ref(t)[k]))
      && (w.node[k].place.InPool? ==> w.node[k].place.job.input == RefInput(t, k))
  {
    RunInv(t, ws, steps, i);
    AccountedNode(t, ws[i], k);
  }

  lemma AccountedNode(t: Task, w: World, k: Key)
    requires t.Valid() && Inv(t, w) && w.phase != Stopped && k in w.node
    ensures w.node[k].place.Through() ==> w.node[k].status == Concluded(RefOf(t, k))
    ensures w.node[k].place.InPool? ==> w.node[k].place.job.input == RefInput(t, k)
  {
    assert NodeOk(t, w.phase, k, w.node[k]);
  }

  // ---------- Progress ----------

  /** The first node of the order that is not through has no one left to wait for. */
  lemma {:induction false} FirstOpen(t: Task, w: World, n: nat) returns (k: Key)
    requires t.Valid() && Inv(t, w) && n <= |t.dag.order|
    requires exists i :: n <= i < |t.dag.order| && t.dag.order[i] in w.Open()
    requires forall i :: 0 <= i < n ==> t.dag.order[i] !in w.Open()
    ensures k in w.Open() && forall s :: s in Preds(t.Graph(), k) ==> s !in w.Open()
    decreases |t.dag.order| - n
  {
    if t.dag.order[n] in w.Open() {
      k := t.dag.order[n];
      forall s | s in Preds(t.Graph(), k) ensures s !in w.Open() {
        assert (s, t.dag.order[n]) in t.Graph().edges;
        assert s in t.dag.order[..n];
      }
    } else {
      k := FirstOpen(t, w, n + 1);
    }
  }

  lemma OpenButUnblocked(t: Task, w: World, k: Key)
    requires t.Valid() && Inv(t, w) && w.phase == AtSelect && k in w.Open()
    requires forall s :: s in Preds(t.Graph(), k) ==> s !in w.Open()
    ensures w.node[k].place.Active()
  {
    forall s | s in Preds(t.Graph(), k) ensures s in w.Results() {
      assert (s, k) in t.Graph().edges;
      assert !w.Blocks(s);
    }
    assert Preds(t.Graph(), k) - w.Results().Keys == {};
    var n := w.node[k];
    assert n.place.Unsubmitted? ==> n.inDegree == 0;
    assert !IsReady(n);
  }

  lemma SomeActive(t: Task, w: World) returns (k: Key)
    requires t.Valid() && Inv(t, w) && w.phase == AtSelect && w.remaining > 0
    ensures k in w.node && w.node[k].place.Active()
  {
    assert w.Open() != {};
    var j :| j in w.Open();
    assert j in Elems(t.dag.order);
    k := FirstOpen(t, w, 0);
    OpenButUnblocked(t, w, k);
  }

  /** At the select with work left, some node is in the pool, in the channel or on a timer. */
  lemma Progress(t: Task, ws: seq<World>, steps: seq<Step>, i: nat)
    requires t.Valid() && Run(t, ws, steps) && i < |ws| && ApprovalsDue(ws, steps, i) && NoRetryLost(t, ws, steps, i)
    requires ws[i].phase == AtSelect && ws[i].remaining > 0
    ensures exists k :: k in ws[i].node && ws[i].node[k].place.Active()
  {
    RunInv(t, ws, steps, i);
    var k := SomeActive(t, ws[i]);
  }

  // ---------- Termination ----------

  function RetriesLeft(t: Task, k: Key, retries: nat): nat {
    if retries < t.MaxRetry(k) then t.MaxRetry(k) - retries else 0
  }

  function PlaceCredit(n: NodeState): nat {
    match n.place
    case Unsubmitted => 5
    case OnTimer => 4
    case InPool(_) => if n.status == Running then 2 else 3
    case Buffered(_) => 1
    case _ => 0
  }

  /** What a node can still do. */
  function Credit(t: Task, k: Key, n: NodeState): nat {
    5 * RetriesLeft(t, k, n.retries) + PlaceCredit(n)
  }

  ghost function Total(t: Task, order: seq<Key>, node: map<Key, NodeState>): nat {
    if order == [] then 0
    else
      var k := order[|order| - 1];
      Total(t, order[..|order| - 1], node) + if k in node then Credit(t, k, node[k]) else 0
  }

  ghost function Potential(t: Task, w: World): nat {
    3 * Total(t, t.dag.order, w.node) + if w.phase == Top then 2 else if w.phase == AtSelect then 1 else 0
  }

  ghost predicate NoneRises(t: Task, a: map<Key, NodeState>, b: map<Key, NodeState>) {
    a.Keys == b.Keys && forall k :: k in a ==> Credit(t, k, b[k]) <= Credit(t, k, a[k])
  }

  lemma {:induction false} TotalFalls(t: Task, order: seq<Key>, a: map<Key, NodeState>, b: map<Key, NodeState>)
    requires NoneRises(t, a, b)
    ensures Total(t, order, b) <= Total(t, order, a)
    ensures (exists k :: k in order && k in a && Credit(t, k, b[k]) < Credit(t, k, a[k])) ==>
      Total(t, order, b) < Total(t, order, a)
  {
    if order != [] {
      var last := order[|order| - 1];
      assert order == order[..|order| - 1] + [last];
      TotalFalls(t, order[..|order| - 1], a, b);
    }
  }

  lemma PotentialFalls(t: Task, w: World, w': World, k: Key)
    requires t.Valid() && w.node.Keys == t.dag.nodes.Keys && k in w.node
    requires NoneRises(t, w.node, w'.node) && Credit(t, k, w'.node[k]) < Credit(t, k, w.node[k])
    ensures Potential(t, w') < Potential(t, w)
  {
    assert k in Elems(t.dag.order);
    hide WellFormed, NoneRises, Credit, Total;
    TotalFalls(t, t.dag.order, w.node, w'.node);
  }

  lemma SubmitFalls(t: Task, w: World)
    requires t.Valid() && Inv(t, w) && w.phase == Top
    ensures Potential(t, SubmitReady(t, w)) < Potential(t, w)
  {
    hide Inv, NewJob;
    var w' := SubmitReady(t, w);
    forall k | k in w.node ensures Credit(t, k, w'.node[k]) <= Credit(t, k, w.node[k]) {}
    TotalFalls(t, t.dag.order, w.node, w'.node);
  }

  lemma AbortFalls(t: Task, w: World)
    requires w.phase != Stopped
    ensures Potential(t, Abort(w)) < Potential(t, w)
  {
    TotalFalls(t, t.dag.order, w.node, Abort(w).node);
  }

  lemma PutFalls(t: Task, w: World, k: Key, n: NodeState)
    requires k in w.node && Credit(t, k, n) < Credit(t, k, w.node[k])
    ensures NoneRises(t, w.node, w.node[k := n])
    ensures Credit(t, k, w.node[k := n][k]) < Credit(t, k, w.node[k])
  {
  }

  lemma TakeDoneFalls(t: Task, w: World, k: Key, o: string)
    requires k in w.node && w.node[k].place == Buffered(Done(o))
    ensures NoneRises(t, w.node, TakeDone(t, w, k, o).node)
    ensures Credit(t, k, TakeDone(t, w, k, o).node[k]) < Credit(t, k, w.node[k])
  {
  }

  lemma SkipNoneRises(t: Task, u: World, k: Key, w': World)
    requires SkipDownstream(t, u, k, w')
    ensures NoneRises(t, u.node, w'.node)
  {
    forall j | j in u.node ensures Credit(t, j, w'.node[j]) <= Credit(t, j, u.node[j]) {}
  }

  lemma TakeFailFalls(t: Task, w: World, w': World, k: Key)
    requires k in w.node && w.node[k].place == Buffered(Fail) && SkipDownstream(t, FailedOnce(w, k), k, w')
    ensures NoneRises(t, w.node, w'.node)
    ensures Credit(t, k, w'.node[k]) < Credit(t, k, w.node[k])
  {
    PutFalls(t, w, k, w.node[k].(place := Blocked));
    SkipNoneRises(t, FailedOnce(w, k), k, w');
  }

  lemma TakeFalls(t: Task, w: World, w': World, k: Key)
    requires t.Valid() && Inv(t, w) && Take(t, w, w', k)
    ensures Potential(t, w') < Potential(t, w)
  {
    match w.node[k].place.outcome {
      case Done(o) => TakeDoneFalls(t, w, k, o);
      case AwaitApproval => PutFalls(t, w, k, w.node[k].(place := Blocked));
      case Fail =>
        if ShouldRetry(t.MaxRetry(k), w.node[k].retries) { PutFalls(t, w, k, Retried(w.node[k])); }
        else { TakeFailFalls(t, w, w', k); }
    }
    PotentialFalls(t, w, w', k);
  }

  lemma WorkFalls(t: Task, w: World, w': World, s: Step)
    requires t.Valid() && Inv(t, w) && w.phase != Stopped && Next(t, w, w', s)
      && (s.Start? || s.FinishNode? || s.FireTimer?)
    ensures Potential(t, w') < Potential(t, w)
  {
    hide Nodes, Fed, LoopInv, WellFormed, NewJob;
    PutFalls(t, w, s.k, w'.node[s.k]);
    PotentialFalls(t, w, w', s.k);
  }

  /** Every step of a live loop uses up potential. */
  lemma LiveStepFalls(t: Task, w: World, w': World, s: Step)
    requires t.Valid() && Inv(t, w) && w.phase != Stopped && Next(t, w, w', s) && !s.Restart?
    ensures Potential(t, w') < Potential(t, w)
  {
    if s.Submit? { SubmitFalls(t, w); }
    else if s.AbortTask? { AbortFalls(t, w); }
    else if s.TakeOutcome? { TakeFalls(t, w, w', s.k); }
    else { WorkFalls(t, w, w', s); }
  }

  ghost predicate LiveRun(t: Task, ws: seq<World>, steps: seq<Step>) {
    && |ws| == |steps| + 1
    && forall i :: 0 <= i < |steps| ==>
         ws[i].phase != Stopped && Next(t, ws[i], ws[i + 1], steps[i]) && !steps[i].Restart?
  }

  /** A loop takes a bounded number of steps, whatever the retries and the order of completions. */
  lemma {:induction false} LoopTerminates(t: Task, ws: seq<World>, steps: seq<Step>)
    requires t.Valid() && LiveRun(t, ws, steps) && Inv(t, ws[0])
    ensures |steps| <= Potential(t, ws[0])
    ensures Inv(t, ws[|steps|])
    ensures Potential(t, ws[|steps|]) + |steps| <= Potential(t, ws[0])
  {
    if |steps| > 0 {
      var n := |steps| - 1;
      LoopTerminates(t, ws[..n + 1], steps[..n]);
      assert Next(t, ws[n], ws[n + 1], steps[n]);
      NextInv(t, ws[n], ws[n + 1], steps[n]);
      LiveStepFalls(t, ws[n], ws[n + 1], steps[n]);
    }
  }
}
