/** Every step keeps `Inv`; hence every run, with any number of restarts, computes the reference. */
module Refinement {
  import opened Sorting
  import opened Graphs
  import opened Dags
  import opened Evaluation
  import opened Execution

  // ---------- Inputs ----------

  /** Once the predecessors have their results, the assembled input is the reference input. */
  lemma InputIsRef(t: Task, results: map<Key, string>, k: Key)
    requires t.Valid() && k in t.dag.nodes && Preds(t.Graph(), k) <= results.Keys
    requires forall s :: s in results ==> s in t.dag.nodes && RefOf(t, s) == Succeeded(results[s])
    ensures AssembledInput(t.dag, k, results, t.input) == RefInput(t, k)
    ensures RefOf(t, k) == Executed(t, k, RefInput(t, k)) && !RefOf(t, k).Skipped?
  {
    forall s | s in Preds(t.Graph(), k) ensures s in Outputs(Ref(t)) && Outputs(Ref(t))[s] == results[s] {
      assert s in results;
    }
    InputFixedByPreds(t.dag, k, results, Outputs(Ref(t)), t.input);
    RefRuns(t, k);
  }

  lemma ResultsAreRef(t: Task, w: World)
    requires w.node.Keys == t.dag.nodes.Keys && Nodes(t, w)
    ensures forall s :: s in w.Results() ==> s in t.dag.nodes && RefOf(t, s) == Succeeded(w.Results()[s])
  {
    forall s | s in w.Results() ensures s in t.dag.nodes && RefOf(t, s) == Succeeded(w.Results()[s]) {
      assert NodeOk(t, w.phase, s, w.node[s]);
    }
  }

  lemma JobIsRef(t: Task, w: World, k: Key, n: nat)
    requires t.Valid() && w.node.Keys == t.dag.nodes.Keys && Nodes(t, w)
    requires k in w.node && Preds(t.Graph(), k) <= w.Results().Keys
    ensures NewJob(t, w, k, n) == Job(RefInput(t, k), n)
    ensures RefOf(t, k) == Executed(t, k, RefInput(t, k)) && !RefOf(t, k).Skipped?
  {
    ResultsAreRef(t, w);
    InputIsRef(t, w.Results(), k);
  }

  lemma EmptyDifference<T>(a: set<T>, b: set<T>)
    requires |a - b| == 0
    ensures a <= b
  {
    forall x | x in a ensures x in b {
      assert x !in b ==> x in a - b;
    }
  }

  // ---------- Steps that move one node and keep the results ----------

  /** What one node's step must respect for the rest of the world not to notice. */
  ghost predicate Quiet(w: World, k: Key, n: NodeState) {
    && k in w.node
    && (n.place.HasResult? <==> w.node[k].place.HasResult?)
    && (n.place.HasResult? ==> n.place == w.node[k].place)
    && (n.place.Unsubmitted? <==> w.node[k].place.Unsubmitted?)
    && n.inDegree == w.node[k].inDegree
    && (n.place.Blocked? <==> w.node[k].place.Blocked?)
    && (n.place.Active() ==> w.node[k].place.Active())
  }

  lemma QuietResults(w: World, k: Key, n: NodeState)
    requires Quiet(w, k, n)
    ensures Put(w, k, n).Results() == w.Results()
    ensures Put(w, k, n).Open() == w.Open()
  {
  }

  lemma QuietBlocks(t: Task, w: World, k: Key, n: NodeState)
    requires Quiet(w, k, n)
    ensures BlockedClosed(t, w) ==> BlockedClosed(t, Put(w, k, n))
    ensures HasFailed(t, Put(w, k, n)) <==> HasFailed(t, w)
  {
    var w' := Put(w, k, n);
    assert forall j :: w'.Blocks(j) <==> w.Blocks(j);
  }

  lemma QuietLoopInv(t: Task, w: World, k: Key, n: NodeState)
    requires LoopInv(t, w) && Quiet(w, k, n)
    ensures LoopInv(t, Put(w, k, n))
  {
    QuietResults(w, k, n);
    QuietBlocks(t, w, k, n);
    hide BlockedClosed, HasFailed, Preds;
  }

  lemma QuietInv(t: Task, w: World, k: Key, n: NodeState)
    requires Inv(t, w) && Quiet(w, k, n) && NodeOk(t, w.phase, k, n)
    ensures Inv(t, Put(w, k, n))
  {
    QuietResults(w, k, n);
    if w.phase != Stopped { QuietLoopInv(t, w, k, n); }
  }

  lemma StartInv(t: Task, w: World, k: Key)
    requires Inv(t, w) && k in w.node && w.node[k].place.InPool?
    ensures Inv(t, Put(w, k, w.node[k].(status := Running)))
  {
    assert NodeOk(t, w.phase, k, w.node[k]);
    QuietInv(t, w, k, w.node[k].(status := Running));
  }

  lemma FinishNodeOk(t: Task, w: World, k: Key)
    requires t.Valid() && Inv(t, w) && k in w.node && w.node[k].place.InPool?
    ensures NodeOk(t, w.phase, k, Finish(t, w, k).node[k])
  {
    assert NodeOk(t, w.phase, k, w.node[k]);
    JobIsRef(t, w, k, 0);
  }

  lemma FinishInv(t: Task, w: World, k: Key)
    requires t.Valid() && Inv(t, w) && k in w.node && w.node[k].place.InPool?
    ensures Inv(t, Finish(t, w, k))
  {
    FinishNodeOk(t, w, k);
    QuietInv(t, w, k, Finish(t, w, k).node[k]);
  }

  lemma FireInv(t: Task, w: World, k: Key)
    requires t.Valid() && Inv(t, w) && k in w.node && w.node[k].place.OnTimer?
    ensures Inv(t, Fire(t, w, k))
  {
    assert NodeOk(t, w.phase, k, w.node[k]);
    JobIsRef(t, w, k, w.node[k].retries);
    QuietInv(t, w, k, Fire(t, w, k).node[k]);
  }

  lemma TopInv(t: Task, w: World)
    requires Inv(t, w) && w.phase != Stopped
    ensures Inv(t, w.(phase := Top))
  {
    var w' := w.(phase := Top);
    assert w'.Results() == w.Results() && w'.Open() == w.Open();
    assert forall k :: w'.Blocks(k) <==> w.Blocks(k);
    assert forall k :: k in w.node ==> NodeOk(t, w.phase, k, w.node[k]);
  }

  lemma RetriedOk(t: Task, k: Key, n: NodeState)
    requires NodeOk(t, AtSelect, k, n) && n.place == Buffered(Fail) && ShouldRetry(t.MaxRetry(k), n.retries)
    ensures NodeOk(t, AtSelect, k, Retried(n))
  {
  }

  lemma TakeRetryInv(t: Task, w: World, k: Key)
    requires Inv(t, w) && w.phase == AtSelect && k in w.node && w.node[k].place == Buffered(Fail)
    requires ShouldRetry(t.MaxRetry(k), w.node[k].retries)
    ensures Inv(t, TakeRetry(w, k))
  {
    RetriedOk(t, k, w.node[k]) by { assert NodeOk(t, w.phase, k, w.node[k]); }
    var w' := Put(w, k, Retried(w.node[k]));
    QuietInv(t, w, k, Retried(w.node[k]));
    TopInv(t, w');
  }

  // ---------- Submitting ----------

  lemma ReadyOk(t: Task, w: World, k: Key)
    requires t.Valid() && Inv(t, w) && w.phase == Top && k in w.node && IsReady(w.node[k])
    ensures Preds(t.Graph(), k) <= w.Results().Keys
    ensures NewJob(t, w, k, 0) == Job(RefInput(t, k), 0) && Going(t, k, 0)
  {
    EmptyDifference(Preds(t.Graph(), k), w.Results().Keys);
    JobIsRef(t, w, k, 0);
  }

  lemma SubmittedOk(t: Task, w: World, k: Key)
    requires t.Valid() && Inv(t, w) && w.phase == Top && k in w.node
    ensures NodeOk(t, AtSelect, k, SubmitReady(t, w).node[k])
    ensures SubmitReady(t, w).node[k].place.Active() ==> Preds(t.Graph(), k) <= w.Results().Keys
  {
    assert NodeOk(t, w.phase, k, w.node[k]);
    if IsReady(w.node[k]) { ReadyOk(t, w, k); }
  }

  lemma SubmitKeeps(t: Task, w: World)
    ensures SubmitReady(t, w).Results() == w.Results()
    ensures SubmitReady(t, w).Open() == w.Open()
    ensures forall k :: SubmitReady(t, w).Blocks(k) <==> w.Blocks(k)
    ensures NoneReady(SubmitReady(t, w))
  {
  }

  lemma SubmitLoopInv(t: Task, w: World)
    requires LoopInv(t, w)
    ensures LoopInv(t, SubmitReady(t, w))
  {
    SubmitKeeps(t, w);
  }

  lemma SubmitInv(t: Task, w: World)
    requires t.Valid() && Inv(t, w) && w.phase == Top
    ensures Inv(t, SubmitReady(t, w))
  {
    SubmitKeeps(t, w);
    SubmitLoopInv(t, w);
    forall k | k in w.node
      ensures NodeOk(t, AtSelect, k, SubmitReady(t, w).node[k])
      ensures SubmitReady(t, w).node[k].place.Active() ==> Preds(t.Graph(), k) <= w.Results().Keys
    {
      SubmittedOk(t, w, k);
    }
  }

  // ---------- Taking a result ----------

  lemma TakeDoneResults(t: Task, w: World, k: Key, o: string)
    requires k in w.node && w.node[k].place == Buffered(Done(o))
    ensures TakeDone(t, w, k, o).Results() == w.Results()[k := o] && k !in w.Results()
    ensures TakeDone(t, w, k, o).Open() == w.Open() - {k} && k in w.Open()
    ensures forall j :: TakeDone(t, w, k, o).Blocks(j) <==> w.Blocks(j)
  {
  }

  lemma OneMoreDone(t: Task, done: set<Key>, k: Key, j: Key)
    requires t.Valid() && k in t.dag.nodes && k !in done
    ensures |Preds(t.Graph(), j) - (done + {k})|
         == |Preds(t.Graph(), j) - done| - if j in Succs(t.dag.edges, k) then 1 else 0
  {
    assert j in Succs(t.dag.edges, k) <==> k in Preds(t.Graph(), j);
    assert Preds(t.Graph(), j) - (done + {k}) == Preds(t.Graph(), j) - done - {k};
  }

  lemma TakeDoneDegrees(t: Task, w: World, k: Key, o: string)
    requires t.Valid() && w.node.Keys == t.dag.nodes.Keys && Degrees(t, w)
    requires k in w.node && w.node[k].place == Buffered(Done(o))
    ensures Degrees(t, TakeDone(t, w, k, o))
  {
    TakeDoneResults(t, w, k, o);
    var w' := TakeDone(t, w, k, o);
    assert w'.Results().Keys == w.Results().Keys + {k};
    forall j | j in w'.node && w'.node[j].place.Unsubmitted?
      ensures w'.node[j].inDegree == |Preds(t.Graph(), j) - w'.Results().Keys|
    {
      OneMoreDone(t, w.Results().Keys, k, j);
    }
  }

  lemma TakeDoneLoopInv(t: Task, w: World, k: Key, o: string)
    requires t.Valid() && w.node.Keys == t.dag.nodes.Keys && LoopInv(t, w)
    requires k in w.node && w.node[k].place == Buffered(Done(o))
    ensures LoopInv(t, TakeDone(t, w, k, o))
  {
    TakeDoneResults(t, w, k, o);
    TakeDoneDegrees(t, w, k, o);
  }

  lemma TakenOk(t: Task, k: Key, n: NodeState, o: string)
    requires NodeOk(t, AtSelect, k, n) && n.place == Buffered(Done(o))
    ensures NodeOk(t, Top, k, n.(place := HasResult(o)))
  {
  }

  lemma DegreeIrrelevant(t: Task, phase: Phase, k: Key, n: NodeState, d: int)
    requires NodeOk(t, phase, k, n)
    ensures NodeOk(t, phase, k, n.(inDegree := d))
  {
  }

  lemma TakeDoneNode(t: Task, w: World, k: Key, o: string, j: Key)
    requires Nodes(t, w) && w.phase == AtSelect && k in w.node && w.node[k].place == Buffered(Done(o)) && j in w.node
    ensures NodeOk(t, Top, j, TakeDone(t, w, k, o).node[j])
  {
    assert NodeOk(t, w.phase, j, w.node[j]);
    if j == k { TakenOk(t, k, w.node[k], o); } else { DegreeIrrelevant(t, Top, j, w.node[j], w.node[j].inDegree - 1); }
  }

  lemma TakeDoneNodes(t: Task, w: World, k: Key, o: string)
    requires Inv(t, w) && w.phase == AtSelect && k in w.node && w.node[k].place == Buffered(Done(o))
    ensures Nodes(t, TakeDone(t, w, k, o))
  {
    forall j | j in w.node ensures NodeOk(t, Top, j, TakeDone(t, w, k, o).node[j]) {
      TakeDoneNode(t, w, k, o, j);
    }
  }

  lemma TakeDoneFed(t: Task, w: World, k: Key, o: string)
    requires Fed(t, w) && k in w.node && w.node[k].place == Buffered(Done(o))
    ensures Fed(t, TakeDone(t, w, k, o))
  {
    TakeDoneResults(t, w, k, o);
  }

  lemma TakeDoneInv(t: Task, w: World, k: Key, o: string)
    requires t.Valid() && Inv(t, w) && w.phase == AtSelect
    requires k in w.node && w.node[k].place == Buffered(Done(o))
    ensures Inv(t, TakeDone(t, w, k, o))
  {
    TakeDoneNodes(t, w, k, o);
    TakeDoneFed(t, w, k, o);
    TakeDoneLoopInv(t, w, k, o);
  }

  // ---------- Taking a failure ----------

  /** Nothing downstream of a failure was ever submitted. */
  lemma DownstreamIdle(t: Task, w: World, k: Key, d: Key)
    requires t.Valid() && Inv(t, w) && k in w.node && !RefOf(t, k).Succeeded? && d in Descendants(t.Graph(), k)
    ensures d in w.node && RefOf(t, d) == Skipped
    ensures w.node[d].place.Unsubmitted? || w.node[d].place.Blocked?
  {
    RefSkipsDownstream(t, k);
    assert NodeOk(t, w.phase, d, w.node[d]);
    if w.node[d].place.Active() { JobIsRef(t, w, d, 0); }
  }

  lemma SkippedOk(t: Task, k: Key, n: NodeState, n': NodeState)
    requires NodeOk(t, Top, k, n) && SkippedNode(n, n') && RefOf(t, k) == Skipped
    requires n.place.Unsubmitted? || n.place.Blocked?
    ensures NodeOk(t, Top, k, n')
  {
  }

  lemma FailureOk(t: Task, k: Key, n: NodeState)
    requires NodeOk(t, AtSelect, k, n) && n.place == Buffered(Fail) && !ShouldRetry(t.MaxRetry(k), n.retries)
    ensures RefOf(t, k) == Failed
    ensures NodeOk(t, Top, k, n.(place := Blocked))
  {
  }

  /** A failure of node `k` that the loop is about to take. */
  ghost predicate Failing(t: Task, w: World, k: Key, w': World) {
    && t.Valid() && Inv(t, w) && w.phase == AtSelect && k in w.node && w.node[k].place == Buffered(Fail)
    && !ShouldRetry(t.MaxRetry(k), w.node[k].retries)
    && SkipDownstream(t, FailedOnce(w, k), k, w')
  }

  /** What holds of the world in which the loop is about to take a failure, and of the next. */
  lemma FailingFacts(t: Task, w: World, k: Key, w': World)
    requires Failing(t, w, k, w')
    ensures t.Valid() && Inv(t, w)
    ensures k in w.node && w.node[k].place.Active() && w.node.Keys == t.dag.nodes.Keys
    ensures w'.node.Keys == w.node.Keys && w'.phase == Top && w'.failed
    ensures w'.remaining == FailedOnce(w, k).remaining - |Descendants(t.Graph(), k) * NotSubmitted(FailedOnce(w, k))|
    ensures Degrees(t, w) && BlockedClosed(t, w) && w.remaining == |w.Open()|
  {
  }

  lemma FailIsRef(t: Task, w: World, k: Key, w': World)
    requires Failing(t, w, k, w')
    ensures RefOf(t, k) == Failed
  {
    assert NodeOk(t, w.phase, k, w.node[k]);
    FailureOk(t, k, w.node[k]);
  }

  lemma TakeFailNode(t: Task, w: World, k: Key, w': World, j: Key)
    requires Failing(t, w, k, w') && j in w.node
    ensures j in w'.node && NodeOk(t, Top, j, w'.node[j])
    ensures w'.node[j].place ==
      if j == k || (j in Descendants(t.Graph(), k) && w.node[j].place.Unsubmitted?) then Blocked else w.node[j].place
    ensures w'.node[j].place.Unsubmitted? ==> w'.node[j].inDegree == w.node[j].inDegree
  {
    assert NodeOk(t, w.phase, j, w.node[j]) && NodeOk(t, w.phase, k, w.node[k]);
    FailureOk(t, k, w.node[k]);
    var u := FailedOnce(w, k);
    if j in Descendants(t.Graph(), k) {
      DownstreamIdle(t, w, k, j);
      if j != k { SkippedOk(t, j, u.node[j], w'.node[j]); }
    }
  }

  /** Where the nodes are after the failure of `k`. */
  ghost predicate FailPlaces(t: Task, w: World, k: Key, w': World) {
    w'.node.Keys == w.node.Keys && forall j :: j in w.node ==>
      w'.node[j].place ==
        if j == k || (j in Descendants(t.Graph(), k) && w.node[j].place.Unsubmitted?) then Blocked else w.node[j].place
  }

  lemma FailResults(t: Task, w: World, k: Key, w': World)
    requires FailPlaces(t, w, k, w') && k in w.node && w.node[k].place.Active()
    ensures w'.Results() == w.Results()
  {
  }

  lemma FailOpen(t: Task, w: World, k: Key, w': World)
    requires FailPlaces(t, w, k, w') && k in w.node && w.node[k].place.Active()
    ensures w.Open() == w'.Open() + {k} + Descendants(t.Graph(), k) * NotSubmitted(w)
    ensures k !in w'.Open() && w'.Open() !! Descendants(t.Graph(), k) * NotSubmitted(w)
    ensures k !in Descendants(t.Graph(), k) * NotSubmitted(w)
  {
  }

  lemma ThreeParts<T>(a: set<T>, b: set<T>, k: T, c: set<T>)
    requires a == b + {k} + c && k !in b && b !! c && k !in c
    ensures |a| == |b| + 1 + |c|
  {
    assert |b + {k}| == |b| + 1;
  }

  lemma FailedOnceUnsubmitted(w: World, k: Key)
    requires k in w.node && w.node[k].place.Active()
    ensures NotSubmitted(FailedOnce(w, k)) == NotSubmitted(w)
  {
  }

  lemma FailRemaining(t: Task, w: World, k: Key, w': World)
    requires k in w.node && w.node[k].place.Active() && FailPlaces(t, w, k, w') && w.remaining == |w.Open()|
    requires w'.remaining == FailedOnce(w, k).remaining - |Descendants(t.Graph(), k) * NotSubmitted(FailedOnce(w, k))|
    ensures w'.remaining == |w'.Open()|
  {
    FailedOnceUnsubmitted(w, k);
    FailOpen(t, w, k, w');
    ThreeParts(w.Open(), w'.Open(), k, Descendants(t.Graph(), k) * NotSubmitted(w));
  }

  lemma FailBlocks(t: Task, w: World, k: Key, w': World)
    requires FailPlaces(t, w, k, w') && k in w.node && w.node[k].place.Active()
    ensures forall j :: w'.Blocks(j) ==> w.Blocks(j) || j == k || j in Descendants(t.Graph(), k)
    ensures forall j :: w.Blocks(j) ==> w'.Blocks(j)
    ensures w'.Blocks(k)
    ensures forall j :: j in w.node && w'.node[j].place.Unsubmitted? ==> w.node[j].place.Unsubmitted?
  {
  }

  /** After the failure of `k` the loop is at its top, with a failed node. */
  lemma LoopGoesOn(t: Task, w: World, k: Key)
    requires w.phase == Top && w.failed && w.Blocks(k) && RefOf(t, k) == Failed
    requires Degrees(t, w) && BlockedClosed(t, w) && w.remaining == |w.Open()|
    ensures LoopInv(t, w)
  {
  }

  lemma TakeFailClosed(t: Task, w: World, k: Key, w': World)
    requires t.Valid() && BlockedClosed(t, w) && w.node.Keys == t.dag.nodes.Keys == w'.node.Keys
    requires forall j :: j in w.node && j in Descendants(t.Graph(), k) ==> w'.Blocks(j)
    requires forall j :: w'.Blocks(j) ==> w.Blocks(j) || j == k || j in Descendants(t.Graph(), k)
    requires forall j :: w.Blocks(j) ==> w'.Blocks(j)
    ensures BlockedClosed(t, w')
  {
    var g := t.Graph();
    forall s, j | (s, j) in g.edges && w'.Blocks(s) ensures w'.Blocks(j) {
      if !w.Blocks(s) {
        EdgeReaches(g, s, j);
        if s != k { ReachesTransitive(g, k, s, j); }
        assert j in Descendants(g, k);
      }
    }
  }

  lemma TakeFailNodes(t: Task, w: World, k: Key, w': World)
    requires Failing(t, w, k, w')
    ensures FailPlaces(t, w, k, w') && Nodes(t, w')
    ensures forall j :: j in w.node && w'.node[j].place.Unsubmitted? ==> w'.node[j].inDegree == w.node[j].inDegree
    ensures forall j :: j in w.node && j in Descendants(t.Graph(), k) ==> w'.Blocks(j)
  {
    FailIsRef(t, w, k, w');
    FailingFacts(t, w, k, w');
    hide Inv, NodeOk, Descendants, Failing, RefOf, FailedOnce, Task.Valid;
    forall j | j in w.node
      ensures NodeOk(t, w'.phase, j, w'.node[j])
      ensures w'.node[j].place ==
        if j == k || (j in Descendants(t.Graph(), k) && w.node[j].place.Unsubmitted?) then Blocked
        else w.node[j].place
      ensures w'.node[j].place.Unsubmitted? ==> w'.node[j].inDegree == w.node[j].inDegree
      ensures j in Descendants(t.Graph(), k) ==> w'.Blocks(j)
    {
      TakeFailNode(t, w, k, w', j);
      if j in Descendants(t.Graph(), k) { DownstreamIdle(t, w, k, j); }
    }
  }

  lemma FailDegrees(t: Task, w: World, w': World)
    requires Degrees(t, w) && w'.node.Keys == w.node.Keys && w'.Results() == w.Results()
    requires forall j :: j in w.node && w'.node[j].place.Unsubmitted? ==>
      w.node[j].place.Unsubmitted? && w'.node[j].inDegree == w.node[j].inDegree
    ensures Degrees(t, w')
  {
    hide Preds;
  }

  lemma TakeFailLoopInv(t: Task, w: World, k: Key, w': World)
    requires Failing(t, w, k, w') && FailPlaces(t, w, k, w') && RefOf(t, k) == Failed
    requires forall j :: j in w.node && w'.node[j].place.Unsubmitted? ==> w'.node[j].inDegree == w.node[j].inDegree
    requires forall j :: j in w.node && j in Descendants(t.Graph(), k) ==> w'.Blocks(j)
    ensures LoopInv(t, w')
  {
    FailingFacts(t, w, k, w');
    FailResults(t, w, k, w');
    FailBlocks(t, w, k, w');
    FailRemaining(t, w, k, w');
    TakeFailClosed(t, w, k, w');
    FailDegrees(t, w, w');
    LoopGoesOn(t, w', k);
    hide *;
  }

  lemma FailFed(t: Task, w: World, k: Key, w': World)
    requires Inv(t, w) && FailPlaces(t, w, k, w') && k in w.node && w.node[k].place.Active()
    ensures Fed(t, w')
  {
    FailResults(t, w, k, w');
    hide Preds, Nodes, LoopInv;
  }

  lemma InvHolds(t: Task, w: World)
    requires w.node.Keys == t.dag.nodes.Keys && Nodes(t, w) && Fed(t, w) && LoopInv(t, w)
    ensures Inv(t, w)
  {
    hide Nodes, Fed, LoopInv;
  }

  lemma TakeFailInv(t: Task, w: World, k: Key, w': World)
    requires Failing(t, w, k, w')
    ensures Inv(t, w')
  {
    hide *;
    FailIsRef(t, w, k, w');
    FailingFacts(t, w, k, w');
    TakeFailNodes(t, w, k, w');
    FailFed(t, w, k, w');
    TakeFailLoopInv(t, w, k, w');
    InvHolds(t, w');
  }

  // ---------- Stopping ----------

  lemma StoppedInv(t: Task, w: World, w': World)
    requires Inv(t, w) && w'.phase == Stopped && w'.node.Keys == w.node.Keys
    requires w'.Results() == w.Results()
    requires forall j :: j in w.node ==> NodeOk(t, Stopped, j, w'.node[j])
    requires forall j :: j in w.node && w'.node[j].place.Active() ==> w.node[j].place.Active()
    ensures Inv(t, w')
  {
  }

  lemma HaltedOk(t: Task, phase: Phase, k: Key, n: NodeState)
    requires NodeOk(t, phase, k, n)
    ensures NodeOk(t, Stopped, k, n)
    ensures n.place.Unsubmitted? ==> NodeOk(t, Stopped, k, n.(place := Blocked, status := Cancelled))
    ensures n.place.InPool? ==> NodeOk(t, Stopped, k, n.(place := Blocked, status := Cancelled))
    ensures n.place == Buffered(AwaitApproval) ==> NodeOk(t, Stopped, k, n.(place := Blocked))
    ensures n.status == Waiting && !n.place.InPool? && !n.place.OnTimer? ==>
      NodeOk(t, Stopped, k, n.(status := Concluded(Decided(t.decide(k)))))
  {
  }

  lemma AbortInv(t: Task, w: World)
    requires Inv(t, w)
    ensures Inv(t, Abort(w))
  {
    var w' := Abort(w);
    forall j | j in w.node ensures NodeOk(t, Stopped, j, w'.node[j]) {
      assert NodeOk(t, w.phase, j, w.node[j]);
      HaltedOk(t, w.phase, j, w.node[j]);
    }
    assert w'.Results() == w.Results();
    StoppedInv(t, w, w');
  }

  lemma PutResults(w: World, k: Key, n: NodeState)
    requires k in w.node && (n.place.HasResult? <==> w.node[k].place.HasResult?)
    requires n.place.HasResult? ==> n.place == w.node[k].place
    ensures Put(w, k, n).Results() == w.Results()
  {
  }

  /** One node changes while the loop is stopped, or the loop stops on it. */
  lemma HaltOneInv(t: Task, w: World, k: Key, n: NodeState, remaining: int)
    requires Inv(t, w) && k in w.node && NodeOk(t, Stopped, k, n)
    requires n.place.HasResult? <==> w.node[k].place.HasResult?
    requires n.place.HasResult? ==> n.place == w.node[k].place
    requires n.place.Active() ==> w.node[k].place.Active()
    ensures Inv(t, Put(w, k, n).(phase := Stopped, remaining := remaining))
  {
    var w' := Put(w, k, n).(phase := Stopped, remaining := remaining);
    hide NodeOk, LoopInv, Fed;
    forall j | j in w.node ensures NodeOk(t, Stopped, j, w'.node[j]) {
      assert NodeOk(t, w.phase, j, w.node[j]);
      HaltedOk(t, w.phase, j, w.node[j]);
    }
    PutResults(w, k, n);
    StoppedInv(t, w, w');
  }

  // ---------- Restarting ----------

  /** Every stored conclusion is the reference's; a waiting node waits for the decision that counts. */
  ghost predicate SoundStore(t: Task, store: map<Key, NodeStatus>) {
    forall k :: k in store ==>
      && (store[k].Concluded? ==> store[k].c == RefOf(t, k))
      && (store[k] == Waiting ==> t.IsApproval(k) && RefOf(t, k) == Decided(t.decide(k)))
  }

  lemma DownstreamSkipped(t: Task, store: map<Key, NodeStatus>, b: Key)
    requires t.Valid() && store.Keys == t.dag.nodes.Keys && SoundStore(t, store)
    requires b in Downstream(t.Graph(), Stored(store))
    ensures RefOf(t, b) == Skipped
  {
    var stored := Stored(store);
    var a :| a in stored && !stored[a].Succeeded? && Reaches(t.Graph(), a, b);
    RefSkipsDownstream(t, a);
  }

  lemma RestoredOk(t: Task, store: map<Key, NodeStatus>, k: Key, n: NodeState)
    requires t.Valid() && store.Keys == t.dag.nodes.Keys && SoundStore(t, store) && k in store
    requires RestoredNode(t, Stored(store), k, store[k], n)
    ensures NodeOk(t, Top, k, n) && !n.place.Active()
    ensures n.place.HasResult? <==> k in Outputs(Stored(store))
    ensures n.place.HasResult? ==> n.place.output == Outputs(Stored(store))[k]
    ensures n.place.Blocked? <==>
      (k in Stored(store) && !Stored(store)[k].Succeeded?) || k in Downstream(t.Graph(), Stored(store))
  {
    if k in Downstream(t.Graph(), Stored(store)) { DownstreamSkipped(t, store, k); }
  }

  /** Where the nodes are after a restore. */
  ghost predicate RestoredPlaces(t: Task, stored: map<Key, Conclusion>, w: World) {
    forall k :: k in w.node ==>
      && !w.node[k].place.Active()
      && (w.node[k].place.HasResult? <==> k in Outputs(stored))
      && (w.node[k].place.HasResult? ==> w.node[k].place.output == Outputs(stored)[k])
      && (w.node[k].place.Blocked? <==> (k in stored && !stored[k].Succeeded?) || k in Downstream(t.Graph(), stored))
  }

  lemma RestoredNodes(t: Task, store: map<Key, NodeStatus>, w: World)
    requires t.Valid() && Restored(t, store, w) && SoundStore(t, store)
    ensures RestoredPlaces(t, Stored(store), w) && Nodes(t, w)
  {
    forall k | k in w.node
      ensures NodeOk(t, w.phase, k, w.node[k]) && !w.node[k].place.Active()
      ensures w.node[k].place.HasResult? <==> k in Outputs(Stored(store))
      ensures w.node[k].place.HasResult? ==> w.node[k].place.output == Outputs(Stored(store))[k]
      ensures w.node[k].place.Blocked? <==>
        (k in Stored(store) && !Stored(store)[k].Succeeded?) || k in Downstream(t.Graph(), Stored(store))
    {
      RestoredOk(t, store, k, w.node[k]);
    }
  }

  lemma RestoredResults(t: Task, stored: map<Key, Conclusion>, w: World)
    requires RestoredPlaces(t, stored, w) && stored.Keys <= w.node.Keys
    ensures w.Results() == Outputs(stored)
    ensures Fed(t, w)
  {
  }

  lemma RestoredClosed(t: Task, stored: map<Key, Conclusion>, w: World)
    requires t.Valid() && w.node.Keys == t.dag.nodes.Keys && RestoredPlaces(t, stored, w)
    ensures BlockedClosed(t, w)
  {
    var g := t.Graph();
    forall s, j | (s, j) in g.edges && w.Blocks(s) ensures w.Blocks(j) {
      EdgeReaches(g, s, j);
      if s in Downstream(g, stored) {
        var a :| a in stored && !stored[a].Succeeded? && Reaches(g, a, s);
        ReachesTransitive(g, a, s, j);
      }
      assert j in Downstream(g, stored);
    }
  }

  lemma RestoredFailed(t: Task, store: map<Key, NodeStatus>, w: World)
    requires t.Valid() && Restored(t, store, w) && SoundStore(t, store) && RestoredPlaces(t, Stored(store), w)
    ensures w.failed <==> HasFailed(t, w)
  {
    forall k | w.Blocks(k) && RefOf(t, k) == Failed ensures k in Stored(store) && Stored(store)[k] == Failed {
      if k in Downstream(t.Graph(), Stored(store)) { DownstreamSkipped(t, store, k); }
    }
    forall k | k in Stored(store) && Stored(store)[k] == Failed ensures w.Blocks(k) && RefOf(t, k) == Failed {}
  }

  lemma RestoredDegrees(t: Task, store: map<Key, NodeStatus>, w: World)
    requires Restored(t, store, w) && w.Results() == Outputs(Stored(store))
    ensures Degrees(t, w)
  {
  }

  lemma RestoredInv(t: Task, store: map<Key, NodeStatus>, w: World)
    requires t.Valid() && Restored(t, store, w) && SoundStore(t, store)
    ensures Inv(t, w)
  {
    RestoredNodes(t, store, w);
    RestoredResults(t, Stored(store), w);
    RestoredClosed(t, Stored(store), w);
    RestoredFailed(t, store, w);
    RestoredDegrees(t, store, w);
  }

  lemma {:induction false} AttemptsFailIff(t: Task, k: Key, input: string, n: nat)
    ensures Attempts(t, k, input, n) == Failed <==> AllFail(t, k, input, n)
    decreases t.MaxRetry(k) - n
  {
    if ShouldRetry(t.MaxRetry(k), n) {
      AttemptsFailIff(t, k, input, n + 1);
    }
  }

  /** Attempt `m` succeeds, is allowed, and comes after failures only. */
  ghost predicate FirstSuccess(t: Task, k: Key, input: string, n: nat, m: nat, output: string) {
    && (m == n || n < m <= t.MaxRetry(k))
    && t.exec(k, input, m) == Output(output)
    && forall j: nat :: n <= j < m ==> t.exec(k, input, j).Error?
  }

  /** A node succeeds with the output of its first successful attempt, if one comes within the retry limit. */
  lemma {:induction false} AttemptsSucceedIff(t: Task, k: Key, input: string, n: nat, output: string)
    ensures Attempts(t, k, input, n) == Succeeded(output) <==> exists m: nat :: FirstSuccess(t, k, input, n, m, output)
    decreases t.MaxRetry(k) - n
  {
    if t.exec(k, input, n).Output? {
      assert Attempts(t, k, input, n) == Succeeded(output) ==> FirstSuccess(t, k, input, n, n, output);
    } else if ShouldRetry(t.MaxRetry(k), n) {
      AttemptsSucceedIff(t, k, input, n + 1, output);
      if m: nat :| FirstSuccess(t, k, input, n, m, output) {
        assert FirstSuccess(t, k, input, n + 1, m, output);
      }
      var next := n + 1;
      if m: nat :| FirstSuccess(t, k, input, next, m, output) {
        assert FirstSuccess(t, k, input, n, m, output);
      }
    }
  }

  lemma FutileIffFails(t: Task, w: World, k: Key)
    requires t.Valid() && Inv(t, w) && k in w.node && MidRetry(t, k, w.node[k])
    ensures RefOf(t, k) == Failed <==>
      AllFail(t, k, AssembledInput(t.dag, k, w.Results(), t.input), NextAttempt(w.node[k]))
    ensures !RefOf(t, k).Skipped?
  {
    MidRetryGoing(t, w, k);
    hide Inv, MidRetry, NextAttempt, Attempts, AllFail, RefInput;
    AttemptsFailIff(t, k, RefInput(t, k), NextAttempt(w.node[k]));
  }

  lemma MidRetryNode(t: Task, k: Key, n: NodeState)
    requires MidRetry(t, k, n) && PlaceOk(t, k, n)
    ensures RefOf(t, k) == Attempts(t, k, RefInput(t, k), NextAttempt(n))
  {
    hide RefOf, RefInput, Attempts;
  }

  lemma MidRetryPlace(t: Task, w: World, k: Key)
    requires Inv(t, w) && k in w.node && MidRetry(t, k, w.node[k])
    ensures PlaceOk(t, k, w.node[k]) && Preds(t.Graph(), k) <= w.Results().Keys
    ensures w.node.Keys == t.dag.nodes.Keys && Nodes(t, w)
  {
    assert NodeOk(t, w.phase, k, w.node[k]);
    hide PlaceOk, StoreOk, LoopOk, LoopInv, Preds;
  }

  /** A node caught between two attempts has the reference input, and its next attempts decide its conclusion. */
  lemma MidRetryGoing(t: Task, w: World, k: Key)
    requires t.Valid() && Inv(t, w) && k in w.node && MidRetry(t, k, w.node[k])
    ensures AssembledInput(t.dag, k, w.Results(), t.input) == RefInput(t, k) && !RefOf(t, k).Skipped?
    ensures RefOf(t, k) == Attempts(t, k, RefInput(t, k), NextAttempt(w.node[k]))
  {
    hide Inv, MidRetry, PlaceOk, Nodes, WellFormed, AssembledInput, RefInput, RefOf, Attempts, Executed, NextAttempt;
    MidRetryPlace(t, w, k);
    MidRetryNode(t, k, w.node[k]);
    JobIsRef(t, w, k, 0);
  }

  lemma FutileSound(t: Task, w: World)
    requires t.Valid() && Inv(t, w) && RetriesFutile(t, w)
    ensures SoundStore(t, w.Store())
  {
    forall k | k in w.Store()
      ensures w.Store()[k].Concluded? ==> w.Store()[k].c == RefOf(t, k)
      ensures w.Store()[k] == Waiting ==> t.IsApproval(k) && RefOf(t, k) == Decided(t.decide(k))
    {
      assert NodeOk(t, w.phase, k, w.node[k]);
      if MidRetry(t, k, w.node[k]) { FutileIffFails(t, w, k); }
    }
  }

  // ---------- Every step, every run ----------

  lemma TakeInv(t: Task, w: World, w': World, k: Key)
    requires t.Valid() && Inv(t, w) && Take(t, w, w', k)
    ensures Inv(t, w')
  {
    match w.node[k].place.outcome
    case Done(o) => TakeDoneInv(t, w, k, o);
    case AwaitApproval =>
      HaltedOk(t, w.phase, k, w.node[k]) by { assert NodeOk(t, w.phase, k, w.node[k]); }
      HaltOneInv(t, w, k, w.node[k].(place := Blocked), 0);
    case Fail =>
      if ShouldRetry(t.MaxRetry(k), w.node[k].retries) { TakeRetryInv(t, w, k); } else { TakeFailInv(t, w, k, w'); }
  }

  lemma StoppedStepInv(t: Task, w: World, w': World, s: Step)
    requires t.Valid() && Inv(t, w) && Next(t, w, w', s) && (s.Drop? || (s.ApproveNode? && Due(w, s.k)))
    ensures Inv(t, w')
  {
    var n := w.node[s.k];
    HaltedOk(t, w.phase, s.k, n) by { assert NodeOk(t, w.phase, s.k, n); }
    var n' :=
      if s.Drop? then n.(place := Blocked, status := Cancelled)
      else n.(status := Concluded(Decided(t.decide(s.k))));
    HaltOneInv(t, w, s.k, n', w.remaining);
    assert Put(w, s.k, n').(phase := Stopped, remaining := w.remaining) == Put(w, s.k, n');
  }

  lemma NextInv(t: Task, w: World, w': World, s: Step)
    requires t.Valid() && Inv(t, w) && Next(t, w, w', s)
    requires (s.Restart? ==> RetriesFutile(t, w)) && (s.ApproveNode? ==> Due(w, s.k))
    ensures Inv(t, w')
  {
    match s
    case Submit => SubmitInv(t, w);
    case Start(k) => StartInv(t, w, k);
    case FinishNode(k) => FinishInv(t, w, k);
    case TakeOutcome(k) => TakeInv(t, w, w', k);
    case FireTimer(k) => FireInv(t, w, k);
    case AbortTask => AbortInv(t, w);
    case Drop(k) => StoppedStepInv(t, w, w', s);
    case ApproveNode(k) => StoppedStepInv(t, w, w', s);
    case Restart =>
      FutileSound(t, w);
      RestoredInv(t, w.Store(), w');
  }

  ghost function AllPending(t: Task): map<Key, NodeStatus> {
    map k | k in t.dag.nodes :: Pending
  }

  /** The behaviours of the engine: a fresh start, then any steps, with restarts after cuts at any point. */
  ghost predicate Run(t: Task, ws: seq<World>, steps: seq<Step>) {
    && |ws| == |steps| + 1
    && Restored(t, AllPending(t), ws[0])
    && forall i :: 0 <= i < |steps| ==> Next(t, ws[i], ws[i + 1], steps[i])
  }

  lemma RunOn(t: Task, ws: seq<World>, steps: seq<Step>, w: World, s: Step)
    returns (ws': seq<World>, steps': seq<Step>)
    requires Run(t, ws, steps) && Next(t, ws[|steps|], w, s)
    ensures Run(t, ws', steps') && ws' == ws + [w] && steps' == steps + [s]
  {
    ws', steps' := ws + [w], steps + [s];
  }

  /** The cuts before the restarts among the first `n` steps lose no retry that would have succeeded. */
  ghost predicate NoRetryLost(t: Task, ws: seq<World>, steps: seq<Step>, n: nat)
    requires n <= |steps| <= |ws|
  {
    forall i :: 0 <= i < n && steps[i].Restart? ==> RetriesFutile(t, ws[i])
  }

  /** The approvals among the first `n` steps name nodes that wait for one. */
  ghost predicate ApprovalsDue(ws: seq<World>, steps: seq<Step>, n: nat)
    requires n <= |steps| <= |ws|
  {
    forall i :: 0 <= i < n && steps[i].ApproveNode? ==> Due(ws[i], steps[i].k)
  }

  lemma {:induction false} RunInv(t: Task, ws: seq<World>, steps: seq<Step>, i: nat)
    requires t.Valid() && Run(t, ws, steps) && i < |ws| && ApprovalsDue(ws, steps, i) && NoRetryLost(t, ws, steps, i)
    ensures Inv(t, ws[i])
  {
    if i == 0 {
      RestoredInv(t, AllPending(t), ws[0]);
    } else {
      RunInv(t, ws, steps, i - 1);
      NextInv(t, ws[i - 1], ws[i - 1 + 1], steps[i - 1]);
    }
  }
}
