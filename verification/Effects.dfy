/**
 What the steps of a task do, said of the stored states alone: which step stores what for which node,
 and how an approval takes effect at the next restart.
 */
module Effects {
  import opened Sorting
  import opened Graphs
  import opened Dags
  import opened Evaluation
  import opened Execution
  import opened Refinement

  /** The failure of node `k` that is about to be taken is its last. */
  ghost predicate FailsForGood(t: Task, w: World, k: Key) {
    k in w.node && w.node[k].place == Buffered(Fail) && w.node[k].retries >= t.MaxRetry(k)
  }

  /** What is stored for node `j` after step `s`, if the step is no restart. */
  ghost function StoredNext(t: Task, w: World, s: Step, j: Key): NodeStatus
    requires j in w.node && (s.FinishNode? && s.k == j ==> w.node[j].place.InPool?)
  {
    var before := w.node[j].status;
    match s
    case Start(k) => if j == k then Running else before
    case FinishNode(k) =>
      if j != k then before
      else if k in t.dag.nodes && t.dag.nodes[k].nodeType == "approval" then Waiting
      else (match t.exec(k, w.node[j].place.job.input, w.node[j].place.job.attempt)
            case Output(x) => Concluded(Succeeded(x))
            case Error => Concluded(Failed))
    case TakeOutcome(k) =>
      if FailsForGood(t, w, k) && Reaches(t.Graph(), k, j) && w.node[j].place.Unsubmitted? then Concluded(Skipped)
      else before
    case AbortTask => if w.node[j].place.Unsubmitted? then Cancelled else before
    case Drop(k) => if j == k then Cancelled else before
    case ApproveNode(k) =>
      if j != k then before
      else (match t.decide(k)
            case Approve(comment) => Concluded(Succeeded("approved: " + comment))
            case Reject => Concluded(Failed))
    case _ => before
  }

  /** Taking an outcome stores nothing, unless it is a last failure. */
  lemma TakeKeepsStore(t: Task, w: World, w': World, k: Key, j: Key)
    requires Take(t, w, w', k) && !FailsForGood(t, w, k) && j in w.node
    ensures j in w'.node && w'.node[j].status == w.node[j].status
  {
    hide SkipDownstream;
  }

  lemma LastFailureStores(t: Task, w: World, w': World, k: Key, j: Key)
    requires w.node.Keys == t.dag.nodes.Keys && k in w.node && SkipDownstream(t, FailedOnce(w, k), k, w') && j in w.node
    requires w.node[k].place.Buffered?
    ensures j in w'.node && w'.node[j].status ==
      if Reaches(t.Graph(), k, j) && w.node[j].place.Unsubmitted? then Concluded(Skipped) else w.node[j].status
  {
    assert j in Descendants(t.Graph(), k) <==> Reaches(t.Graph(), k, j);
    hide Reaches, Descendants, NotSubmitted;
  }

  lemma TakeStores(t: Task, w: World, w': World, k: Key, j: Key)
    requires w.node.Keys == t.dag.nodes.Keys && Take(t, w, w', k) && j in w.node
    ensures j in w'.node && w'.node[j].status == StoredNext(t, w, TakeOutcome(k), j)
  {
    if FailsForGood(t, w, k) {
      assert SkipDownstream(t, FailedOnce(w, k), k, w') && w.node[k].place.Buffered?;
      hide Take, SkipDownstream, Reaches, FailedOnce;
      LastFailureStores(t, w, w', k, j);
    } else {
      hide Take, Reaches, FailsForGood;
      TakeKeepsStore(t, w, w', k, j);
    }
  }

  /** Every step stores exactly this. */
  lemma StepStores(t: Task, w: World, w': World, s: Step, j: Key)
    requires w.node.Keys == t.dag.nodes.Keys && Next(t, w, w', s) && !s.Restart? && j in w.node
    ensures j in w'.node && w'.node[j].status == StoredNext(t, w, s, j)
  {
    if s.TakeOutcome? { TakeStores(t, w, w', s.k, j); }
  }

  /** A request for approval stops the loop and leaves all that is stored. */
  lemma RequestPauses(t: Task, w: World, w': World, k: Key)
    requires Take(t, w, w', k) && w.node[k].place == Buffered(AwaitApproval)
    ensures w'.phase == Stopped && w'.remaining == 0 && w'.Store() == w.Store()
  {
  }

  /** An approved node has its comment as its result after the next restart; a rejected one has failed. */
  lemma ApprovalTakesEffect(t: Task, w: World, approved: World, w': World, k: Key)
    requires Next(t, w, approved, ApproveNode(k)) && Next(t, approved, w', Restart)
    ensures k in w'.node
    ensures match t.decide(k)
      case Approve(comment) => w'.node[k].place == HasResult("approved: " + comment)
      case Reject => w'.node[k].place.Blocked? && w'.failed
  {
    assert approved.Store()[k] == Concluded(Decided(t.decide(k)));
    assert k in Stored(approved.Store());
    assert RestoredNode(t, Stored(approved.Store()), k, approved.Store()[k], w'.node[k]);
  }
}
