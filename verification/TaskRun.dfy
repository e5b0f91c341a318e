/**
 `executeTask` in its own form: the variables its closures share are fields, and the closures are
 methods.  Each method is proved equal to a step of `Execution`, and `Run` drives the loop to its
 end against any scheduling of workers and timers and any end of the task's context.
 */
module TaskRuns {
  import opened Sorting
  import opened Graphs
  import opened Dags
  import opened Evaluation
  import opened Execution
  import opened Refinement
  import opened Confluence
  import opened Skipping
  import opened TaskVars
  import opened Traffic

  class TaskRun {
    const t: Task
    var phase: Phase
    var inDegree: map<Key, int>
    var submitted: set<Key>
    var results: map<Key, string>
    var remaining: int
    var failed: bool                  // firstErr holds the failure of a node
    var retryCount: map<Key, nat>
    var pool: seq<(Key, Job)>         // the jobs in the worker pool
    var done: seq<(Key, Outcome)>     // the buffer of the channel
    var retryTimers: seq<(Key, nat)>  // the timers that are set, with the number of the retry
    var store: map<Key, NodeStatus>

    /** The variables before the restore. */
    constructor (task: Task, stored: map<Key, NodeStatus>)
      requires task.Valid() && stored.Keys == task.dag.nodes.Keys
      ensures t == task && store == stored && Fresh(t, State()) && Orderly()
    {
      t, store, phase := task, stored, Top;
      inDegree, submitted, results, remaining := task.dag.inDegree, {}, map[], |task.dag.nodes|;
      failed, retryCount := false, map k | k in task.dag.nodes :: 0;
      pool, done, retryTimers := [], [], [];
      new;
      hide WellFormed, Fresh;
      FreshStart(t, State(), stored);
    }

    ghost function Ledger(): Books
      reads `inDegree, `submitted, `remaining, `store
    {
      Books(inDegree, submitted, remaining, store)
    }

    ghost function Rest(): Flow
      reads `phase, `results, `failed, `retryCount, `pool, `done, `retryTimers
    {
      Flow(phase, results, failed, retryCount, Table(pool), Table(done), Table(retryTimers).Keys)
    }

    ghost function State(): Vars
      reads this
    {
      Both(Ledger(), Rest())
    }

    /** No node is listed twice in the pool, in the channel or among the timers. */
    ghost predicate Orderly()
      reads `pool, `done, `retryTimers
    {
      Once(pool) && Once(done) && Once(retryTimers)
    }

    ghost predicate Valid()
      reads this
    {
      Coherent(t, State()) && Orderly()
    }

    ghost function Abs(): World
      reads this
    {
      WorldOf(t, State())
    }

    // ---------- Skipping ----------

    method MarkSkipped(key: Key)
      modifies `submitted, `remaining, `store
      ensures Ledger() == MarkOne(old(Ledger()), key)
    {
      if key in submitted {
        return;
      }
      submitted := submitted + {key};
      remaining := remaining - 1;
      store := store[key := Concluded(Skipped)];
    }

    /** One round of the loop: the in-degree falls and the node is skipped. */
    method SkipNode(cur: Key)
      requires cur in inDegree
      modifies `inDegree, `submitted, `remaining, `store
      ensures Ledger() == SkipOne(old(Ledger()), cur)
    {
      inDegree := inDegree[cur := inDegree[cur] - 1];
      MarkSkipped(cur);
    }

    /** One round of the loop of `SkipDownstream`: the top of the stack gives way to its successors. */
    method SkipTop(from: Key, stack: seq<Key>, ghost visited: set<Key>, ghost before: Books)
      returns (rest: seq<Key>, ghost visited': set<Key>)
      requires t.Valid() && before.store.Keys == before.inDegree.Keys == t.dag.nodes.Keys && stack != []
      requires Descending(t.Graph(), from, visited, stack) && SkippedTo(before, visited, Ledger())
      requires Drained(t.dag, from, stack, before.inDegree, inDegree)
      modifies `inDegree, `submitted, `remaining, `store
      ensures Descending(t.Graph(), from, visited', rest) && SkippedTo(before, visited', Ledger())
      ensures Drained(t.dag, from, rest, before.inDegree, inDegree)
      ensures Sum(rest, Walks(t.dag)) < Sum(stack, Walks(t.dag))
    {
      hide Descending, SkippedTo, Drained, Sum, Walks, WellFormed, SkipOne;
      var cur := stack[|stack| - 1];
      DescendsFurther(t, from, visited, stack);
      StackShrinks(t.dag, stack);
      DrainsFurther(t.dag, from, stack, before.inDegree, inDegree);
      SkipOneMore(before, visited, Ledger(), cur);
      SkipOneDegrees(Ledger(), cur);
      SkipNode(cur);
      visited' := visited + {cur};
      rest := stack[..|stack| - 1] + Succs(t.dag.edges, cur);
    }

    /** Skips everything downstream of `from`; each round uses up one of the walks below the stack. */
    method SkipDownstream(from: Key) returns (ghost down: set<Key>)
      requires t.Valid() && inDegree.Keys == t.dag.nodes.Keys && store.Keys == t.dag.nodes.Keys
      modifies `inDegree, `submitted, `remaining, `store
      ensures IsDownstream(t, from, down) && SkippedTo(old(Ledger()), down, Ledger())
      ensures LoweredByWalks(t.dag, from, old(inDegree), inDegree)
    {
      hide Descending, SkippedTo, Drained, IsDownstream, LoweredByWalks, Sum, Walks, WellFormed;
      ghost var before := Ledger();
      down := {};
      var stack := Succs(t.dag.edges, from);
      DescentStarts(t, from);
      SkipStarts(before);
      DrainStarts(t.dag, from, inDegree);
      while stack != []
        invariant Descending(t.Graph(), from, down, stack) && SkippedTo(before, down, Ledger())
        invariant Drained(t.dag, from, stack, before.inDegree, inDegree)
        decreases Sum(stack, Walks(t.dag))
      {
        stack, down := SkipTop(from, stack, down, before);
      }
      DescentEnds(t, from, down);
      DrainedOut(t.dag, from, before.inDegree, inDegree);
      DownstreamIs(t, from, down);
    }

    // ---------- Submitting ----------

    method SubmitNode(key: Key)
      requires t.Valid() && key in t.dag.nodes && key in retryCount
      modifies `pool
      ensures pool == old(pool) + [(key, JobOf(t, old(State()), key))]
    {
      assert forall s :: s in t.dag.edges ==> Distinct(t.dag.edges[s]) by {
        forall s | s in t.dag.edges ensures Distinct(t.dag.edges[s]) { assert Distinct(Succs(t.dag.edges, s)); }
      }
      var input := AssembleInput(t.dag, key, results, t.input);
      pool := pool + [(key, Job(input, retryCount[key]))];
    }

    /** A node that is not in the pool is submitted. */
    method SubmitOnce(key: Key)
      requires t.Valid() && key in t.dag.nodes && key in retryCount
      requires Once(pool) && key !in Table(pool)
      modifies `pool
      ensures Table(pool) == old(Table(pool))[key := JobOf(t, old(State()), key)] && Once(pool)
    {
      hide WellFormed, Once, Table;
      TableAdd(pool, key, JobOf(t, State(), key));
      SubmitNode(key);
    }

    method MarkAndSubmit(key: Key)
      requires t.Valid() && key in t.dag.nodes && key in retryCount
      requires Once(pool) && key !in Table(pool)
      modifies `submitted, `pool
      ensures State() == SubmittedOne(t, old(State()), key) && Once(pool)
    {
      hide WellFormed, Once, Table;
      SubmitOnce(key);
      submitted := submitted + {key};
    }

    /** Ready nodes are marked and handed to the pool; each input is assembled from the results so far. */
    method SubmitNodes(ready: seq<Key>)
      requires t.Valid() && Distinct(ready) && Elems(ready) <= t.dag.nodes.Keys && retryCount.Keys == t.dag.nodes.Keys
      requires Elems(ready) !! submitted && Table(pool).Keys <= submitted && Once(pool)
      modifies `submitted, `pool
      ensures SubmittedTo(t, old(State()), Elems(ready), State()) && Once(pool)
    {
      hide WellFormed;
      for i := 0 to |ready|
        invariant SubmittedTo(t, old(State()), Elems(ready[..i]), State()) && Once(pool)
      {
        Prefix(ready, i);
        if ready[i] !in submitted {
          SubmitOneMore(t, old(State()), Elems(ready[..i]), State(), ready[i]);
          MarkAndSubmit(ready[i]);
        }
      }
      assert ready[..|ready|] == ready;
    }

    method SubmitReady()
      requires t.Valid() && Valid() && phase == Top
      modifies `phase, `submitted, `pool
      ensures phase == AtSelect && remaining == old(remaining) && Valid()
      ensures exists b ::
        SubmittedTo(t, old(State()), ReadyKeys(t, old(State())), b) && State() == b.(phase := AtSelect)
    {
      var ready := ReadyNodes(t.dag, inDegree, submitted);
      assert Elems(ready) == ReadyKeys(t, State());
      SubmitNodes(ready);
      SubmittedCoherent(t, old(State()), State());
      phase := AtSelect;
    }

    // ---------- Workers and timers ----------

    /** A send on the `done` channel, which blocks unless the buffer has room. */
    method Send(key: Key, outcome: Outcome)
      requires |done| < |t.dag.nodes|
      modifies `done
      ensures done == old(done) + [(key, outcome)]
    {
      done := done + [(key, outcome)];
    }

    method TakeJob(i: nat) returns (key: Key, job: Job)
      requires Once(pool) && i < |pool|
      modifies `pool
      ensures (key, job) == old(pool)[i] && key in old(Table(pool)) && old(Table(pool))[key] == job
      ensures Table(pool) == old(Table(pool)) - {key} && Once(pool)
    {
      hide Once, Table;
      Taken(pool, i);
      key, job := pool[i].0, pool[i].1;
      pool := pool[..i] + pool[i + 1..];
    }

    /** The state of a node is stored and its outcome sent. */
    method Report(key: Key, outcome: Outcome)
      requires |done| < |t.dag.nodes| && Once(done) && key !in Table(done)
      modifies `done, `store
      ensures Table(done) == old(Table(done))[key := outcome] && Once(done)
      ensures store == old(store)[key := StatusOf(outcome)]
    {
      hide Once, Table, StatusOf;
      TableAdd(done, key, outcome);
      store := store[key := StatusOf(outcome)];
      Send(key, outcome);
    }

    /** A worker finishes some job of the pool; there is always room for its outcome. */
    method WorkerFinishes(i: nat)
      requires Valid() && i < |pool|
      modifies `pool, `done, `store
      ensures Valid() && old(pool[i].0 in Table(pool)) && State() == FinishedVars(t, old(State()), old(pool[i].0))
    {
      hide Coherent, Once, Table, Execute, StatusOf;
      ghost var v := State();
      ChannelNeverFull(t, v, pool, done, retryTimers);
      var key, job := TakeJob(i);
      InOnePlace(t, v, key);
      FinishCoherent(t, v, key);
      Report(key, Execute(t, key, job));
    }

    method StopTimer(i: nat) returns (key: Key)
      requires Once(retryTimers) && i < |retryTimers|
      modifies `retryTimers
      ensures key == old(retryTimers)[i].0 && key in old(Table(retryTimers))
      ensures Table(retryTimers).Keys == old(Table(retryTimers).Keys) - {key} && Once(retryTimers)
    {
      hide Once, Table;
      Taken(retryTimers, i);
      key := retryTimers[i].0;
      retryTimers := retryTimers[..i] + retryTimers[i + 1..];
    }

    /** Some timer fires. */
    method TimerFires(i: nat)
      requires t.Valid() && Valid() && i < |retryTimers|
      modifies `retryTimers, `pool
      ensures Valid() && old(retryTimers[i].0) in retryCount
      ensures State() == FiredVars(t, old(State()), old(retryTimers[i].0))
    {
      hide Coherent, Once, Table, WellFormed, Moves, JobOf;
      ghost var v := State();
      var key := StopTimer(i);
      InOnePlace(t, v, key);
      FireMoves(t, v, key);
      assert JobOf(t, State(), key) == JobOf(t, v, key) by { FireJob(t, v, State(), key); }
      SubmitOnce(key);
    }

    // ---------- Taking an outcome ----------

    method LowerOne(key: Key, i: nat, ghost before: map<Key, int>)
      requires t.Valid() && inDegree.Keys == t.dag.nodes.Keys && i < |Succs(t.dag.edges, key)|
      requires LoweredBy(before, Succs(t.dag.edges, key)[..i], inDegree)
      modifies `inDegree
      ensures inDegree.Keys == t.dag.nodes.Keys
      ensures LoweredBy(before, Succs(t.dag.edges, key)[..i + 1], inDegree)
    {
      hide *;
      var target := Succs(t.dag.edges, key)[i];
      SuccessorAt(t, key, i);
      LoweredMore(before, Succs(t.dag.edges, key), i, inDegree);
      inDegree := inDegree[target := inDegree[target] - 1];
    }

    method LowerSuccessors(key: Key)
      requires t.Valid() && inDegree.Keys == t.dag.nodes.Keys
      modifies `inDegree
      ensures LoweredBy(old(inDegree), Succs(t.dag.edges, key), inDegree)
    {
      var succs := Succs(t.dag.edges, key);
      ghost var before := inDegree;
      assert LoweredBy(before, succs[..0], inDegree);
      hide *;
      for i := 0 to |succs|
        invariant inDegree.Keys == t.dag.nodes.Keys && LoweredBy(before, succs[..i], inDegree)
      {
        LowerOne(key, i, before);
      }
      assert succs[..|succs|] == succs;
    }

    method RecordSuccess(key: Key, output: string)
      requires key !in Table(done)
      modifies `phase, `results, `remaining
      ensures State() == SucceededVars(old(State()), key, output, inDegree)
    {
      remaining := remaining - 1;
      results := results[key := output];
      phase := Top;
    }

    method HandleSuccess(key: Key, output: string)
      requires t.Valid() && inDegree.Keys == t.dag.nodes.Keys && key !in Table(done)
      modifies `phase, `inDegree, `results, `remaining
      ensures LoweredBy(old(inDegree), Succs(t.dag.edges, key), inDegree)
      ensures State() == SucceededVars(old(State()), key, output, inDegree) && (old(Orderly()) ==> Orderly())
    {
      hide WellFormed;
      RecordSuccess(key, output);
      LowerSuccessors(key);
    }

    method HandleRetry(key: Key)
      requires key in retryCount && key !in Table(done) && key !in Table(retryTimers) && Orderly()
      modifies `phase, `retryTimers, `retryCount
      ensures State() == RetryVars(old(State()), key) && Orderly()
    {
      hide Once, Table;
      TableAdd(retryTimers, key, retryCount[key] + 1);
      retryCount := retryCount[key := retryCount[key] + 1];
      retryTimers := retryTimers + [(key, retryCount[key])];
      phase := Top;
    }

    method RecordFailure(key: Key)
      requires key !in Table(done)
      modifies `phase, `remaining, `failed
      ensures State() == TakenVars(old(State()), key, Top, true, old(remaining) - 1)
    {
      remaining := remaining - 1;
      failed := true;
      phase := Top;
    }

    method HandleFailure(key: Key)
      requires t.Valid() && inDegree.Keys == t.dag.nodes.Keys && store.Keys == t.dag.nodes.Keys && key !in Table(done)
      modifies `phase, `inDegree, `submitted, `remaining, `failed, `store
      ensures FailedTo(t, old(State()), key, State()) && (old(Orderly()) ==> Orderly())
    {
      hide WellFormed, SkippedTo, FailedTo, IsDownstream, LoweredByWalks;
      RecordFailure(key);
      ghost var b := Ledger();
      ghost var down := SkipDownstream(key);
      FailedToIntro(t, old(State()), key, Rest(), b, down, Ledger());
    }

    /** An approval node waits: the loop ends, downstream nodes stay as they are. */
    method HandlePause(key: Key)
      requires key !in Table(done)
      modifies `phase, `remaining
      ensures State() == TakenVars(old(State()), key, Stopped, failed, 0) && (old(Orderly()) ==> Orderly())
    {
      remaining := 0;
      phase := Stopped;
    }

    /** The loop takes the first outcome from the channel. */
    method Receive() returns (key: Key, outcome: Outcome)
      requires Valid() && done != []
      modifies `done
      ensures Orderly() && key in old(State()).done && old(State()).done[key] == outcome
      ensures key !in Table(done) && State() == Received(old(State()), key)
    {
      Taken(done, 0);
      assert done[..0] + done[1..] == done[1..];
      hide Coherent, Once, Table;
      key, outcome := done[0].0, done[0].1;
      done := done[1..];
    }

    method HandleFail(key: Key, ghost before: Vars)
      requires t.Valid() && Coherent(t, before) && key in before.done && before.done[key] == Fail
      requires State() == Received(before, key) && Orderly()
      modifies this
      ensures Outcomes(t, before, State(), key) && Orderly()
    {
      InOnePlace(t, before, key);
      assert key !in Table(done) && Table(retryTimers).Keys == before.retryTimers && retryCount == before.retryCount;
      assert inDegree.Keys == store.Keys == t.dag.nodes.Keys;
      hide *;
      if ShouldRetry(t.MaxRetry(key), retryCount[key]) {
        OutcomeRetried(t, before, key);
        HandleRetry(key);
      } else {
        HandleFailure(key);
        OutcomeFailed(t, before, key, State());
      }
    }

    /** The branches of the select on an outcome that has been received. */
    method HandleOutcome(key: Key, outcome: Outcome, ghost before: Vars)
      requires t.Valid() && Coherent(t, before) && before.phase == AtSelect && before.books.remaining > 0
      requires key in before.done && before.done[key] == outcome && State() == Received(before, key) && Orderly()
      modifies this
      ensures Outcomes(t, before, State(), key) && Orderly()
    {
      InOnePlace(t, before, key);
      assert key !in Table(done) && inDegree.Keys == t.dag.nodes.Keys && inDegree == before.books.inDegree;
      assert failed == before.failed;
      hide *;
      match outcome {
        case AwaitApproval =>
          OutcomePaused(t, before, key);
          HandlePause(key);
        case Fail => HandleFail(key, before);
        case Done(output) =>
          HandleSuccess(key, output);
          OutcomeDone(t, before, key, output, inDegree);
      }
    }

    // ---------- The end of the task's context ----------

    method MarkCancelled(key: Key)
      modifies `submitted, `store
      ensures submitted == old(submitted) + {key}
      ensures store == if key in old(submitted) then old(store) else old(store)[key := Cancelled]
    {
      if key in submitted {
        return;
      }
      submitted := submitted + {key};
      store := store[key := Cancelled];
    }

    /** Nodes without a conclusion are stored as cancelled, in any order; what is in flight is left to the workers. */
    method CancelOpenNodes()
      requires store.Keys == t.dag.nodes.Keys
      modifies `submitted, `store
      ensures CancelledTo(old(store), old(submitted), t.dag.nodes.Keys, store, submitted)
    {
      var todo := t.dag.nodes.Keys;
      while todo != {}
        invariant todo <= t.dag.nodes.Keys
        invariant CancelledTo(old(store), old(submitted), t.dag.nodes.Keys - todo, store, submitted)
        decreases |todo|
      {
        var key :| key in todo;
        CancelOneMore(old(store), old(submitted), t.dag.nodes.Keys, todo, key, store, submitted);
        hide CancelledTo;
        MarkCancelled(key);
        todo := todo - {key};
      }
      assert t.dag.nodes.Keys - todo == t.dag.nodes.Keys;
    }

    method HandleEnd()
      requires store.Keys == t.dag.nodes.Keys && submitted <= t.dag.nodes.Keys
      modifies `phase, `remaining, `submitted, `store
      ensures State() == AbortedVars(t, old(State()))
      ensures phase == Stopped && remaining == 0 && store.Keys == old(store.Keys)
      ensures forall k :: k in store ==> store[k] == if k in old(submitted) then old(store)[k] else Cancelled
    {
      hide CancelledTo, AbortedVars;
      CancelOpenNodes();
      CancelledAll(t, old(State()), store, submitted);
      CancelledEach(old(store), old(submitted), store, submitted);
      phase, remaining := Stopped, 0;
    }

    // ---------- Checkpoint restore ----------

    method MarkTerminal(key: Key, decSuccessors: bool)
      requires t.Valid() && inDegree.Keys == t.dag.nodes.Keys
      modifies `inDegree, `submitted, `remaining
      ensures MarkedTerminal(old(Ledger()), key, if decSuccessors then Succs(t.dag.edges, key) else [], Ledger())
    {
      if key in submitted {
        return;
      }
      submitted := submitted + {key};
      remaining := remaining - 1;
      if !decSuccessors {
        return;
      }
      LowerSuccessors(key);
    }

    method ReadSuccess(key: Key, output: string)
      requires t.Valid() && inDegree.Keys == t.dag.nodes.Keys
      modifies `inDegree, `submitted, `results, `remaining
      ensures MarkedTerminal(old(Ledger()), key, Succs(t.dag.edges, key), Ledger())
      ensures State() == ReadBack(old(State()), key, Succeeded(output), Ledger())
    {
      MarkTerminal(key, true);
      results := results[key := output];
    }

    method RecordBlocked(key: Key, x: Conclusion)
      requires t.Valid() && inDegree.Keys == t.dag.nodes.Keys && !x.Succeeded?
      modifies `inDegree, `submitted, `remaining, `failed
      ensures MarkedTerminal(old(Ledger()), key, [], Ledger())
      ensures State() == ReadBack(old(State()), key, x, Ledger())
    {
      hide WellFormed;
      MarkTerminal(key, false);
      failed := failed || x.Failed?;
    }

    method ReadBlocked(key: Key, x: Conclusion) returns (ghost marked: Books, ghost down: set<Key>)
      requires t.Valid() && inDegree.Keys == store.Keys == t.dag.nodes.Keys && !x.Succeeded?
      modifies `inDegree, `submitted, `remaining, `failed, `store
      ensures MarkedTerminal(old(Ledger()), key, [], marked)
      ensures Both(marked, Rest()) == ReadBack(old(State()), key, x, marked)
      ensures IsDownstream(t, key, down) && SkippedTo(marked, down, Ledger())
    {
      RecordBlocked(key, x);
      marked := Ledger();
      down := SkipDownstream(key);
    }

    /** One row of the stored node states. */
    method RestoreNode(n: TaskNode, ghost stored: map<Key, NodeStatus>, ghost c: map<Key, Conclusion>,
                       ghost blocked: set<Key>)
      returns (ghost blocked': set<Key>)
      requires t.Valid() && Restoring(t, stored, c, blocked, State())
      requires n.key in stored && stored[n.key] == n.status && n.key !in c
      modifies `inDegree, `submitted, `results, `remaining, `failed, `store
      ensures Restoring(t, stored, if n.status.Concluded? then c[n.key := n.status.c] else c, blocked', State())
    {
      blocked' := blocked;
      ghost var v := State();
      match n.status {
        case Concluded(Succeeded(output)) =>
          ReadSuccess(n.key, output);
          SuccessRead(t, stored, c, blocked, v, n.key, Succeeded(output), Ledger());
        case Concluded(x) =>
          ghost var marked, down := ReadBlocked(n.key, x);
          BlockedRead(t, stored, c, blocked, v, n.key, x, Rest(), marked, down, Ledger());
          blocked' := blocked + down;
        case _ =>
      }
    }

    /** Reads back the stored node states, in whatever order the database lists them. */
    method Restore(nodes: seq<TaskNode>)
      requires t.Valid() && Fresh(t, State()) && Orderly() && Lists(nodes, store)
      modifies `inDegree, `submitted, `results, `remaining, `failed, `store
      ensures Valid() && Restored(t, old(store), Abs())
    {
      StoredStart(nodes);
      hide WellFormed, Restored, Restoring, Coherent, Once, Table, Stored, StoredAmong, Lists, Fresh;
      ghost var blocked: set<Key> := {};
      FreshRestoring(t, State());
      for i := 0 to |nodes|
        invariant Restoring(t, old(store), StoredAmong(nodes[..i]), blocked, State())
      {
        StoredOneMore(nodes, old(store), i);
        blocked := RestoreNode(nodes[i], old(store), StoredAmong(nodes[..i]), blocked);
      }
      assert nodes[..|nodes|] == nodes;
      StoredAll(nodes, old(store));
      RestoredIsStep(t, old(store), blocked, State());
    }

    // ---------- The loop ----------

    method WorkerStep(ghost w0: World, ghost n: nat)
      requires Valid() && Live(t, w0, n, State()) && phase == AtSelect && |pool| > 0
      modifies `pool, `done, `store
      ensures Valid() && Live(t, w0, n + 1, State())
    {
      var i: nat :| i < |pool|;
      TableAt(pool, i);
      LiveFinish(t, w0, n, State(), pool[i].0);
      WorkerFinishes(i);
    }

    method TimerStep(ghost w0: World, ghost n: nat)
      requires t.Valid() && Valid() && Live(t, w0, n, State()) && phase == AtSelect && |retryTimers| > 0
      modifies `retryTimers, `pool
      ensures Valid() && Live(t, w0, n + 1, State())
    {
      var i: nat :| i < |retryTimers|;
      TableAt(retryTimers, i);
      LiveFire(t, w0, n, State(), retryTimers[i].0);
      TimerFires(i);
    }

    /** Some worker or some timer moves. */
    method Advance(ghost w0: World, ghost n: nat)
      requires t.Valid() && Inv(t, w0) && Valid() && Live(t, w0, n, State()) && phase == AtSelect && remaining > 0
      requires done == [] || |pool| > 0
      modifies `pool, `done, `retryTimers, `store
      ensures Valid() && Live(t, w0, n + 1, State()) && n <= Potential(t, w0)
    {
      hide WellFormed, Inv, Live, Coherent;
      LiveActive(t, w0, n, State());
      var timer := *;
      if |retryTimers| > 0 && (timer || |pool| == 0) {
        TimerStep(w0, n);
      } else {
        WorkerStep(w0, n);
      }
    }

    /**
     Workers and timers move, in any order and any number of times, until the loop takes an outcome from
     the channel or sees that the task's context has ended.
     */
    method Await(ghost w0: World, ghost n: nat) returns (ended: bool, ghost m: nat)
      requires t.Valid() && Inv(t, w0) && Valid() && Live(t, w0, n, State()) && phase == AtSelect && remaining > 0
      modifies `pool, `done, `retryTimers, `store
      ensures Valid() && Live(t, w0, m, State()) && n <= m && (ended || done != [])
    {
      hide *;
      m := n;
      ended := *;
      var more := *;
      while !ended && (done == [] || (more && |pool| > 0))
        invariant Valid() && Live(t, w0, m, State()) && n <= m
        decreases Potential(t, w0) - m
      {
        Advance(w0, m);
        m := m + 1;
        ended, more := *, *;
      }
    }

    method SubmitStep(ghost w0: World, ghost n: nat)
      requires t.Valid() && Valid() && Live(t, w0, n, State()) && phase == Top && remaining > 0
      modifies `phase, `submitted, `pool
      ensures Valid() && Live(t, w0, n + 1, State()) && phase == AtSelect
    {
      ghost var v := State();
      SubmitReady();
      ghost var b :| SubmittedTo(t, v, ReadyKeys(t, v), b) && State() == b.(phase := AtSelect);
      LiveSubmit(t, w0, n, v, b);
    }

    method OutcomeStep(ghost w0: World, ghost n: nat)
      requires t.Valid() && Valid() && Live(t, w0, n, State()) && phase == AtSelect && remaining > 0 && done != []
      modifies this
      ensures Valid() && Live(t, w0, n + 1, State())
      ensures phase == Top || (phase == Stopped && remaining == 0)
    {
      ghost var before := State();
      var key, outcome := Receive();
      HandleOutcome(key, outcome, before);
      LiveOutcome(t, w0, n, before, State(), key);
    }

    method EndStep(ghost w0: World, ghost n: nat)
      requires t.Valid() && Valid() && Live(t, w0, n, State()) && phase == AtSelect && remaining > 0
      modifies `phase, `remaining, `submitted, `store
      ensures Valid() && Live(t, w0, n + 1, State())
      ensures phase == Stopped && remaining == 0
    {
      LiveEndOfContext(t, w0, n, State());
      HandleEnd();
    }

    /** One turn of the loop: submit what is ready, wait, take an outcome or stop. */
    method Turn(ghost w0: World, ghost n: nat) returns (ghost m: nat)
      requires t.Valid() && Inv(t, w0) && Valid() && Live(t, w0, n, State()) && phase == Top && remaining > 0
      modifies this
      ensures Valid() && Live(t, w0, m, State()) && n < m
      ensures phase == Top || (phase == Stopped && remaining == 0)
    {
      hide *;
      SubmitStep(w0, n);
      var ended;
      ended, m := Await(w0, n + 1);
      if ended {
        EndStep(w0, m);
      } else {
        OutcomeStep(w0, m);
      }
      m := m + 1;
    }

    /** What the task is reported as: failed if a node has, else stopped, else succeeded with its final output. */
    method End() returns (end: TaskEnd)
      requires t.Valid() && Valid() && (phase != Stopped ==> SequentialOutcome(t, Abs()))
      ensures phase == Stopped ==> end == if failed then TaskFailed else TaskStopped
      ensures phase != Stopped ==> end == RefEnd(t)
    {
      ResultsOf(t, State());
      assert Elems(t.dag.order) == t.dag.nodes.Keys;
      assert forall k :: k in t.dag.order ==> k in Elems(t.dag.order);
      hide Coherent, WellFormed, TaskOutput, Once;
      if failed {
        return TaskFailed;
      }
      if phase == Stopped {
        return TaskStopped;
      }
      var output := FinalOutput(t.dag, results);
      end := TaskSucceeded(output);
    }

    /**
     The main loop, from any world that satisfies the invariant: whatever workers and timers do, it
     ends, and unless it pauses for an approval or its context ends it leaves and reports the outcome of
     evaluating the nodes one by one.
     */
    method Run() returns (end: TaskEnd)
      requires t.Valid() && Valid() && Inv(t, Abs()) && phase == Top
      modifies this
      ensures phase != AtSelect && Valid() && Inv(t, Abs())
      ensures phase == Top ==> SequentialOutcome(t, Abs())
      ensures phase == Stopped ==> end == if failed then TaskFailed else TaskStopped
      ensures phase == Top ==> end == RefEnd(t)
    {
      ghost var w0, n := Abs(), 0;
      LiveStart(t, State());
      while remaining > 0
        invariant Valid() && Live(t, w0, n, State()) && (phase == Top || (phase == Stopped && remaining == 0))
        decreases Potential(t, w0) - n
      {
        LiveBound(t, w0, n, State());
        n := Turn(w0, n);
      }
      LiveBound(t, w0, n, State());
      if phase == Top {
        LiveEnd(t, w0, n, State());
      }
      end := End();
    }

    /** Restore and loop: from sound stored states, a task that is not stopped again ends as if never cut. */
    method Resume(nodes: seq<TaskNode>) returns (end: TaskEnd)
      requires t.Valid() && Fresh(t, State()) && Orderly() && Lists(nodes, store) && SoundStore(t, store)
      modifies this
      ensures phase != AtSelect && Valid() && Inv(t, Abs())
      ensures phase == Top ==> SequentialOutcome(t, Abs())
      ensures phase == Stopped ==> end == if failed then TaskFailed else TaskStopped
      ensures phase == Top ==> end == RefEnd(t)
    {
      assert phase == Top;
      hide *;
      Restore(nodes);
      RestoredInv(t, old(store), Abs());
      end := Run();
    }
  }
}
