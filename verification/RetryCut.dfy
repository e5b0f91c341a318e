/**
 Where the checkpoint promise ends.  Each failed attempt of a node is stored as `failed`, also when
 the node will be tried again.  A restart takes that state as final.  So a task that is cut any number
 of times ends with the uninterrupted outcome if and only if every node that a cut caught between two
 attempts would have failed anyway.
 */
module RetryCut {
  import opened Sorting
  import opened Graphs
  import opened Dags
  import opened Evaluation
  import opened Execution
  import opened Refinement
  import opened Confluence

  /** The node is through without a result, and its stored conclusion is not a success. */
  ghost predicate Lost(w: World, k: Key) {
    w.Blocks(k) && w.node[k].status.Concluded? && !w.node[k].status.c.Succeeded?
  }

  lemma TakeKeepsLost(t: Task, w: World, w': World, j: Key, k: Key)
    requires Take(t, w, w', j) && Lost(w, k)
    ensures Lost(w', k)
  {
  }

  lemma RestartKeepsLost(t: Task, w: World, w': World, k: Key)
    requires Restored(t, w.Store(), w') && k in w.node && w.node[k].status.Concluded? && !w.node[k].status.c.Succeeded?
    ensures Lost(w', k)
  {
    assert RestoredNode(t, Stored(w.Store()), k, w.Store()[k], w'.node[k]);
  }

  lemma StepKeepsLost(t: Task, w: World, w': World, s: Step, k: Key)
    requires Next(t, w, w', s) && (s.ApproveNode? ==> Due(w, s.k)) && Lost(w, k)
    ensures Lost(w', k)
  {
    if s.TakeOutcome? {
      TakeKeepsLost(t, w, w', s.k, k);
    } else if s.Restart? {
      RestartKeepsLost(t, w, w', k);
    }
  }

  lemma {:induction false} RunKeepsLost(t: Task, ws: seq<World>, steps: seq<Step>, i: nat, j: nat, k: Key)
    requires Run(t, ws, steps) && i <= j < |ws| && ApprovalsDue(ws, steps, j) && Lost(ws[i], k)
    ensures Lost(ws[j], k)
    decreases j
  {
    if i < j {
      RunKeepsLost(t, ws, steps, i, j - 1, k);
      StepKeepsLost(t, ws[j - 1], ws[j - 1 + 1], steps[j - 1], k);
    }
  }

  /** A restart that loses a retry stores a node as failed that the reference has succeed. */
  lemma LostAtCut(t: Task, w: World, w': World) returns (k: Key)
    requires t.Valid() && Inv(t, w) && !RetriesFutile(t, w) && Restored(t, w.Store(), w')
    ensures k in t.dag.nodes && Lost(w', k) && RefOf(t, k).Succeeded?
  {
    k :| k in w.node && MidRetry(t, k, w.node[k])
      && !AllFail(t, k, AssembledInput(t.dag, k, w.Results(), t.input), NextAttempt(w.node[k]));
    FutileIffFails(t, w, k);
    RestartKeepsLost(t, w, w', k);
  }

  lemma LostIsNotSequential(t: Task, w: World, k: Key)
    requires t.Valid() && k in t.dag.nodes && Lost(w, k) && RefOf(t, k).Succeeded?
    ensures !SequentialOutcome(t, w)
  {
    assert w.Store()[k] != RefStore(t)[k];
  }

  /** A retry lost in a cut is missing at the end, whatever happens in between. */
  lemma LostRetry(t: Task, ws: seq<World>, steps: seq<Step>, i: nat)
    requires t.Valid() && Run(t, ws, steps) && i < |steps| && steps[i].Restart?
    requires ApprovalsDue(ws, steps, |steps|) && NoRetryLost(t, ws, steps, i) && !RetriesFutile(t, ws[i])
    ensures !SequentialOutcome(t, ws[|steps|])
  {
    assert |ws| == |steps| + 1 && Next(t, ws[i], ws[i + 1], steps[i]);
    assert Restored(t, ws[i].Store(), ws[i + 1]) && ApprovalsDue(ws, steps, i);
    hide *;
    RunInv(t, ws, steps, i);
    var k := LostAtCut(t, ws[i], ws[i + 1]);
    RunKeepsLost(t, ws, steps, i + 1, |steps|, k);
    LostIsNotSequential(t, ws[|steps|], k);
  }

  lemma {:induction false} FirstLoss(t: Task, ws: seq<World>, steps: seq<Step>, n: nat) returns (i: nat)
    requires n <= |steps| <= |ws| && !NoRetryLost(t, ws, steps, n)
    ensures i < n && steps[i].Restart? && NoRetryLost(t, ws, steps, i) && !RetriesFutile(t, ws[i])
  {
    if NoRetryLost(t, ws, steps, n - 1) {
      i := n - 1;
    } else {
      i := FirstLoss(t, ws, steps, n - 1);
    }
  }

  /** The exact condition: a run with any number of cuts at any points ends sequentially iff no cut loses a retry. */
  lemma CutsHarmlessIff(t: Task, ws: seq<World>, steps: seq<Step>)
    requires t.Valid() && Run(t, ws, steps) && Ended(ws[|steps|]) && ApprovalsDue(ws, steps, |steps|)
    ensures SequentialOutcome(t, ws[|steps|]) <==> NoRetryLost(t, ws, steps, |steps|)
  {
    if NoRetryLost(t, ws, steps, |steps|) {
      RunRefinesSequential(t, ws, steps);
    } else {
      var i := FirstLoss(t, ws, steps, |steps|);
      LostRetry(t, ws, steps, i);
    }
  }

  // ---------- The condition can fail ----------

  /** One tool node that fails once and would succeed when tried again. */
  ghost function FlakyTask(): Task {
    var node := Node("a", "tool", 1);
    Task(Dag(map["a" := node], map[], map["a" := 0], ["a"]), "",
         (k, input, n) => if n == 0 then Error else Output("ok"), k => Reject)
  }

  lemma FlakyValid()
    ensures FlakyTask().Valid()
    ensures FlakyTask().Graph().edges == {} && forall k :: Preds(FlakyTask().Graph(), k) == {}
  {
    var d := FlakyTask().dag;
    var g := DagGraph(d);
    assert g.edges == {};
    assert Elems(d.order) == {"a"};
  }

  lemma FlakySucceeds()
    ensures RefOf(FlakyTask(), "a") == Succeeded("ok")
  {
    var t := FlakyTask();
    FlakyValid();
    RefRuns(t, "a");
    assert Attempts(t, "a", RefInput(t, "a"), 0) == Attempts(t, "a", RefInput(t, "a"), 1);
  }

  ghost function FlakyWorld(phase: Phase, n: NodeState): World {
    World(phase, 1, false, map["a" := n])
  }

  lemma FlakyStarts(w0: World)
    requires w0 == FlakyWorld(Top, NodeState(Unsubmitted, 0, 0, Pending))
    ensures Restored(FlakyTask(), AllPending(FlakyTask()), w0)
  {
    FlakyValid();
    var t := FlakyTask();
    assert Stored(AllPending(t)) == map[];
    assert w0.Open() == {"a"};
    assert Preds(t.Graph(), "a") - Outputs(map[]).Keys == {};
  }

  lemma FlakyFails()
    ensures var t := FlakyTask();
      var w0 := FlakyWorld(Top, NodeState(Unsubmitted, 0, 0, Pending));
      var w1 := FlakyWorld(AtSelect, NodeState(InPool(Job("", 0)), 0, 0, Pending));
      var w2 := FlakyWorld(AtSelect, NodeState(Buffered(Fail), 0, 0, Concluded(Failed)));
      Next(t, w0, w1, Submit) && Next(t, w1, w2, FinishNode("a"))
  {
    var t := FlakyTask();
    var w0 := FlakyWorld(Top, NodeState(Unsubmitted, 0, 0, Pending));
    FlakyValid();
    InputKeysArePreds(t.dag, "a");
    assert InputKeys(t.dag, "a") == [];
    assert SubmitReady(t, w0).node == map["a" := NodeState(InPool(Job("", 0)), 0, 0, Pending)];
  }

  lemma FlakyRetries()
    ensures var t := FlakyTask();
      var w2 := FlakyWorld(AtSelect, NodeState(Buffered(Fail), 0, 0, Concluded(Failed)));
      var w3 := FlakyWorld(Top, NodeState(OnTimer, 0, 1, Concluded(Failed)));
      Next(t, w2, w3, TakeOutcome("a")) && MidRetry(t, "a", w3.node["a"])
  {
    var w2 := FlakyWorld(AtSelect, NodeState(Buffered(Fail), 0, 0, Concluded(Failed)));
    assert TakeRetry(w2, "a").node == map["a" := NodeState(OnTimer, 0, 1, Concluded(Failed))];
  }

  lemma FlakyRun() returns (ws: seq<World>, steps: seq<Step>)
    ensures Run(FlakyTask(), ws, steps) && ApprovalsDue(ws, steps, |steps|)
    ensures ws[|steps|] == FlakyWorld(Top, NodeState(OnTimer, 0, 1, Concluded(Failed)))
  {
    var t := FlakyTask();
    var w0 := FlakyWorld(Top, NodeState(Unsubmitted, 0, 0, Pending));
    var w1 := FlakyWorld(AtSelect, NodeState(InPool(Job("", 0)), 0, 0, Pending));
    var w2 := FlakyWorld(AtSelect, NodeState(Buffered(Fail), 0, 0, Concluded(Failed)));
    var w3 := FlakyWorld(Top, NodeState(OnTimer, 0, 1, Concluded(Failed)));
    FlakyStarts(w0);
    FlakyFails();
    FlakyRetries();
    ws, steps := [w0], [];
    ws, steps := RunOn(t, ws, steps, w1, Submit);
    ws, steps := RunOn(t, ws, steps, w2, FinishNode("a"));
    ws, steps := RunOn(t, ws, steps, w3, TakeOutcome("a"));
  }

  /** The restart after that cut has nothing left to do, and the retry never happens. */
  lemma FlakyRestarts()
    ensures var t := FlakyTask();
      var w3 := FlakyWorld(Top, NodeState(OnTimer, 0, 1, Concluded(Failed)));
      var w := World(Top, 0, true, map["a" := NodeState(Blocked, 0, 0, Concluded(Failed))]);
      Restored(t, w3.Store(), w) && Ended(w) && !SequentialOutcome(t, w)
  {
    var t := FlakyTask();
    var w := World(Top, 0, true, map["a" := NodeState(Blocked, 0, 0, Concluded(Failed))]);
    var store := map["a" := Concluded(Failed)];
    FlakyValid();
    FlakySucceeds();
    assert FlakyWorld(Top, NodeState(OnTimer, 0, 1, Concluded(Failed))).Store() == store;
    assert w.Open() == {};
    var stored := Stored(store);
    assert stored == map["a" := Failed];
    ClosedUnderEdges(t.Graph(), "a", {});
    assert Downstream(t.Graph(), stored) == {};
    assert RestoredNode(t, stored, "a", store["a"], w.node["a"]);
    assert stored["a"] == Failed;
    assert w.Store()["a"] != RefStore(t)["a"];
  }

  /** A cut of a run of a valid task after which the restarted run ends with another outcome. */
  lemma RetryCanBeLost()
    ensures exists t: Task, ws: seq<World>, steps: seq<Step>, w: World ::
      && t.Valid() && Run(t, ws, steps) && ApprovalsDue(ws, steps, |steps|)
      && Restored(t, ws[|steps|].Store(), w) && Ended(w) && !SequentialOutcome(t, w)
  {
    var ws, steps := FlakyRun();
    FlakyValid();
    FlakyRestarts();
    hide *;
    assert Run(FlakyTask(), ws, steps);
  }
}
