/**
 The main loop of `executeTask` as a step system (`internal/scheduler/scheduler.go`).

 Each node has a place: not submitted, in the worker pool, in the buffer of the `done` channel, on
 a retry timer, or through, with or without a result.  Workers, timers, the loop, approvers, aborts
 and restarts each take one step at a time, in any order.  `Inv` relates every reachable world to
 the reference `Ref`.
 */
module Execution {
  import opened Sorting
  import opened Graphs
  import opened Dags
  import opened Evaluation

  datatype Phase = Top | AtSelect | Stopped

  datatype Job = Job(input: string, attempt: nat)

  datatype Outcome = Done(output: string) | Fail | AwaitApproval

  /** Where a node is, as the loop variables, the pool, the channel and the timers tell. */
  datatype Place =
    | Unsubmitted
    | InPool(job: Job)
    | Buffered(outcome: Outcome)
    | OnTimer
    | HasResult(output: string)
    | Blocked                   // through without a result: failed or skipped
  {
    predicate Active() { InPool? || Buffered? || OnTimer? }
    predicate Through() { HasResult? || Blocked? }
  }

  /** The stored state of a node. */
  datatype NodeStatus = Pending | Running | Waiting | Cancelled | Concluded(c: Conclusion)

  datatype NodeState = NodeState(place: Place, inDegree: int, retries: nat, status: NodeStatus)

  datatype World = World(phase: Phase, remaining: int, failed: bool, node: map<Key, NodeState>) {
    ghost function Results(): map<Key, string> {
      map k | k in node && node[k].place.HasResult? :: node[k].place.output
    }

    ghost function Open(): set<Key> {
      set k | k in node && !node[k].place.Through()
    }

    ghost predicate Blocks(k: Key) {
      k in node && node[k].place.Blocked?
    }

    ghost function Store(): map<Key, NodeStatus> {
      map k | k in node :: node[k].status
    }
  }

  // ---------- Steps ----------

  ghost function NewJob(t: Task, w: World, k: Key, retries: nat): Job {
    Job(AssembledInput(t.dag, k, w.Results(), t.input), retries)
  }

  predicate IsReady(n: NodeState) {
    n.place.Unsubmitted? && n.inDegree == 0
  }

  /** `submitReady`: every ready node enters the pool. */
  ghost function SubmitReady(t: Task, w: World): World {
    w.(phase := AtSelect,
       node := map k | k in w.node ::
         var n := w.node[k];
         if IsReady(n) then n.(place := InPool(NewJob(t, w, k, n.retries))) else n)
  }

  function Execute(t: Task, k: Key, j: Job): Outcome {
    if t.IsApproval(k) then AwaitApproval
    else match t.exec(k, j.input, j.attempt)
      case Output(o) => Done(o)
      case Error => Fail
  }

  function StatusOf(o: Outcome): NodeStatus {
    match o
    case Done(x) => Concluded(Succeeded(x))
    case Fail => Concluded(Failed)
    case AwaitApproval => Waiting
  }

  /** Updates one node. */
  function Put(w: World, k: Key, n: NodeState): World {
    w.(node := w.node[k := n])
  }

  /** A worker finishes a node: its state is stored and its outcome sent to the loop. */
  function Finish(t: Task, w: World, k: Key): World
    requires k in w.node && w.node[k].place.InPool?
  {
    var o := Execute(t, k, w.node[k].place.job);
    Put(w, k, w.node[k].(place := Buffered(o), status := StatusOf(o)))
  }

  function TakeDone(t: Task, w: World, k: Key, output: string): World {
    World(Top, w.remaining - 1, w.failed,
          map j | j in w.node ::
            var n := w.node[j];
            if j == k then n.(place := HasResult(output))
            else if j in Succs(t.dag.edges, k) then n.(inDegree := n.inDegree - 1)
            else n)
  }

  function Retried(n: NodeState): NodeState {
    n.(place := OnTimer, retries := n.retries + 1)
  }

  function TakeRetry(w: World, k: Key): World
    requires k in w.node
  {
    Put(w, k, Retried(w.node[k])).(phase := Top)
  }

  /** Skipping touches the in-degree of a node downstream and, if it has no conclusion yet, skips it. */
  ghost predicate SkippedNode(n: NodeState, n': NodeState) {
    if n.place.Unsubmitted?
    then n' == n.(place := Blocked, status := Concluded(Skipped), inDegree := n'.inDegree)
    else n' == n.(inDegree := n'.inDegree)
  }

  ghost function NotSubmitted(w: World): set<Key> {
    set k | k in w.node && w.node[k].place.Unsubmitted?
  }

  /** `skipDownstream(from)`. */
  ghost predicate SkipDownstream(t: Task, w: World, from: Key, w': World) {
    var down := Descendants(t.Graph(), from);
    && w' == w.(remaining := w.remaining - |down * NotSubmitted(w)|, node := w'.node)
    && w'.node.Keys == w.node.Keys
    && forall k :: k in w.node ==>
         if k in down then SkippedNode(w.node[k], w'.node[k]) else w'.node[k] == w.node[k]
  }

  ghost function FailedOnce(w: World, k: Key): World
    requires k in w.node
  {
    World(Top, w.remaining - 1, true, w.node[k := w.node[k].(place := Blocked)])
  }

  ghost function Fire(t: Task, w: World, k: Key): World
    requires k in w.node
  {
    Put(w, k, w.node[k].(place := InPool(NewJob(t, w, k, w.node[k].retries))))
  }

  /** The loop takes the outcome of node `k` from the channel. */
  ghost predicate Take(t: Task, w: World, w': World, k: Key) {
    && w.phase == AtSelect && w.remaining > 0 && k in w.node && w.node[k].place.Buffered?
    && match w.node[k].place.outcome
       case Done(o) => w' == TakeDone(t, w, k, o)
       case AwaitApproval => w' == Put(w, k, w.node[k].(place := Blocked)).(phase := Stopped, remaining := 0)
       case Fail =>
         if ShouldRetry(t.MaxRetry(k), w.node[k].retries) then w' == TakeRetry(w, k)
         else SkipDownstream(t, FailedOnce(w, k), k, w')
  }

  /** The task context ended: the loop stops and nodes without a conclusion are stored as cancelled. */
  function Abort(w: World): World {
    World(Stopped, 0, w.failed,
          map k | k in w.node ::
            if w.node[k].place.Unsubmitted? then w.node[k].(place := Blocked, status := Cancelled) else w.node[k])
  }

  // ---------- Restart from the stored states ----------

  ghost function Stored(store: map<Key, NodeStatus>): map<Key, Conclusion> {
    map k | k in store && store[k].Concluded? :: store[k].c
  }

  /** Nodes downstream of a node that is stored as failed or skipped. */
  ghost function Downstream(g: Graph, stored: map<Key, Conclusion>): set<Key> {
    set b | b in g.nodes && exists a :: a in stored && !stored[a].Succeeded? && Reaches(g, a, b)
  }

  /** A node after the checkpoint restore. */
  ghost predicate RestoredNode(t: Task, stored: map<Key, Conclusion>, k: Key, status: NodeStatus, n: NodeState) {
    var down := Downstream(t.Graph(), stored);
    && n.retries == 0
    && (if k in stored && stored[k].Succeeded? then n.place == HasResult(stored[k].output)
        else if k in stored || k in down then n.place == Blocked
        else n.place == Unsubmitted && n.inDegree == |Preds(t.Graph(), k) - Outputs(stored).Keys|)
    && (if k in down then n.status == Concluded(Skipped) || (k in stored && n.status == status) else n.status == status)
  }

  /** The world after the checkpoint restore, for any stored states. */
  ghost predicate Restored(t: Task, store: map<Key, NodeStatus>, w: World) {
    && w.phase == Top && store.Keys == w.node.Keys == t.dag.nodes.Keys
    && w.remaining == |w.Open()|
    && (w.failed <==> exists k :: k in Stored(store) && Stored(store)[k] == Failed)
    && forall k :: k in w.node ==> RestoredNode(t, Stored(store), k, store[k], w.node[k])
  }

  /** A node that failed, is stored as failed, and will be tried again. */
  predicate MidRetry(t: Task, k: Key, n: NodeState) {
    && n.status == Concluded(Failed) && !t.IsApproval(k)
    && (n.place.OnTimer? || n.place.InPool? ||
        (n.place == Buffered(Fail) && ShouldRetry(t.MaxRetry(k), n.retries)))
  }

  /** Attempt `n` of a node and the retries after it all fail. */
  ghost predicate AllFail(t: Task, k: Key, input: string, n: nat) {
    forall m: nat :: m == n || n < m <= t.MaxRetry(k) ==> t.exec(k, input, m).Error?
  }

  /** The number of the next attempt of a node caught between two attempts. */
  function NextAttempt(n: NodeState): nat {
    if n.place.Buffered? then n.retries + 1 else n.retries
  }

  /**
   Every node caught between two attempts would fail in all that are left, on the input it has.  A cut
   that leaves unfinished nodes pending, running, waiting or cancelled catches no node so.
   */
  ghost predicate RetriesFutile(t: Task, w: World) {
    forall k :: k in w.node && MidRetry(t, k, w.node[k]) ==>
      AllFail(t, k, AssembledInput(t.dag, k, w.Results(), t.input), NextAttempt(w.node[k]))
  }

  datatype Step =
    | Submit | Start(k: Key) | FinishNode(k: Key) | TakeOutcome(k: Key) | FireTimer(k: Key)
    | AbortTask | Drop(k: Key) | ApproveNode(k: Key) | Restart

  /** Node `k` waits for an approval; no later run of it is in the pool or on a timer. */
  predicate Due(w: World, k: Key) {
    k in w.node && w.node[k].status == Waiting && !w.node[k].place.InPool? && !w.node[k].place.OnTimer?
  }

  /** One step.  An approval may name any node of a stopped task: the code does not look at the node's state. */
  ghost predicate Next(t: Task, w: World, w': World, s: Step) {
    match s
    case Submit => w.phase == Top && w.remaining > 0 && w' == SubmitReady(t, w)
    case Start(k) =>
      && k in w.node && w.node[k].place.InPool? && w.node[k].status != Running
      && w' == Put(w, k, w.node[k].(status := Running))
    case FinishNode(k) => k in w.node && w.node[k].place.InPool? && w' == Finish(t, w, k)
    case TakeOutcome(k) => Take(t, w, w', k)
    case FireTimer(k) => w.phase != Stopped && k in w.node && w.node[k].place.OnTimer? && w' == Fire(t, w, k)
    case AbortTask => w.phase != Stopped && w.remaining > 0 && w' == Abort(w)
    case Drop(k) =>
      && w.phase == Stopped && k in w.node && w.node[k].place.InPool?
      && w' == Put(w, k, w.node[k].(place := Blocked, status := Cancelled))
    case ApproveNode(k) =>
      && w.phase == Stopped && k in w.node
      && w' == Put(w, k, w.node[k].(status := Concluded(Decided(t.decide(k)))))
    case Restart => Restored(t, w.Store(), w')
  }

  // ---------- The invariant ----------

  /** Attempts `n` and later of node `k` decide its conclusion. */
  ghost predicate Going(t: Task, k: Key, n: nat) {
    !t.IsApproval(k) ==> RefOf(t, k) == Attempts(t, k, RefInput(t, k), n)
  }

  ghost predicate OutcomeOk(t: Task, k: Key, o: Outcome, n: nat) {
    match o
    case Done(x) => RefOf(t, k) == Succeeded(x)
    case AwaitApproval => t.IsApproval(k)
    case Fail => !t.IsApproval(k) && if ShouldRetry(t.MaxRetry(k), n) then Going(t, k, n + 1) else RefOf(t, k) == Failed
  }

  /** A node carries the reference input and heads for the reference conclusion. */
  ghost predicate PlaceOk(t: Task, k: Key, n: NodeState) {
    match n.place
    case Unsubmitted => n.retries == 0
    case InPool(job) => job == Job(RefInput(t, k), n.retries) && Going(t, k, n.retries)
    case Buffered(o) => OutcomeOk(t, k, o, n.retries)
    case OnTimer => !t.IsApproval(k) && Going(t, k, n.retries)
    case HasResult(x) => RefOf(t, k) == Succeeded(x)
    case Blocked => true
  }

  /** Stored conclusions are the reference's, except for a failure that is about to be retried. */
  ghost predicate StoreOk(t: Task, k: Key, n: NodeState) {
    && (n.status.Concluded? ==> n.status.c == RefOf(t, k) || MidRetry(t, k, n))
    && (n.status == Waiting ==> t.IsApproval(k) && RefOf(t, k) == Decided(t.decide(k)))
    && (n.status.Concluded? && n.status.c.Succeeded? ==> !n.place.InPool? && !n.place.OnTimer?)
  }

  /** While the loop runs, the stored state of a node that is done is its true one. */
  ghost predicate LoopOk(t: Task, k: Key, n: NodeState) {
    match n.place
    case Unsubmitted => n.status.Concluded? ==> !n.status.c.Succeeded?
    case Buffered(o) => n.status == StatusOf(o)
    case HasResult(x) => n.status == Concluded(Succeeded(x))
    case Blocked => n.status.Concluded? && n.status.c == RefOf(t, k) && !n.status.c.Succeeded?
    case _ => true
  }

  ghost predicate NodeOk(t: Task, phase: Phase, k: Key, n: NodeState) {
    PlaceOk(t, k, n) && StoreOk(t, k, n) && (phase != Stopped ==> LoopOk(t, k, n))
  }

  ghost predicate Nodes(t: Task, w: World) {
    forall k {:trigger NodeOk(t, w.phase, k, w.node[k])} :: k in w.node ==> NodeOk(t, w.phase, k, w.node[k])
  }

  /** Nodes in flight have all their predecessors' results. */
  ghost predicate Fed(t: Task, w: World) {
    forall k :: k in w.node && w.node[k].place.Active() ==> Preds(t.Graph(), k) <= w.Results().Keys
  }

  /** The in-degree of a node not yet submitted counts the predecessors that have not succeeded. */
  ghost predicate Degrees(t: Task, w: World) {
    forall k :: k in w.node && w.node[k].place.Unsubmitted? ==>
      w.node[k].inDegree == |Preds(t.Graph(), k) - w.Results().Keys|
  }

  /** At the select no node is left that could have been submitted. */
  ghost predicate NoneReady(w: World) {
    w.phase == AtSelect ==> forall k :: k in w.node ==> !IsReady(w.node[k])
  }

  /** Whatever lies downstream of a node without a result is through without a result. */
  ghost predicate BlockedClosed(t: Task, w: World) {
    forall s, k :: (s, k) in t.Graph().edges && w.Blocks(s) ==> w.Blocks(k)
  }

  ghost predicate HasFailed(t: Task, w: World) {
    exists k :: w.Blocks(k) && RefOf(t, k) == Failed
  }

  ghost predicate LoopInv(t: Task, w: World) {
    && Degrees(t, w) && NoneReady(w) && BlockedClosed(t, w)
    && w.remaining == |w.Open()|
    && (w.failed <==> HasFailed(t, w))
  }

  ghost predicate Inv(t: Task, w: World) {
    && w.node.Keys == t.dag.nodes.Keys
    && Nodes(t, w) && Fed(t, w)
    && (w.phase != Stopped ==> LoopInv(t, w))
  }
}
