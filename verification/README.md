# Verified models of NebulaFlow's core protocols

NebulaFlow is a workflow runtime in Go. This project models the protocols and algorithms at its
centre and proves what they are for.

- **The DAG scheduler** (`Sorting`, `Graphs`, `Dag`, `Evaluation`, `Execution`, `Refinement`,
  `Confluence`, `StoredSuccess`, `Effects`, `RetryCut`, `Skipping`, `Traffic`, `TaskVars`, `TaskRun`).
  `Dag` holds `BuildDAG` with its validation and Kahn's algorithm. `Evaluation` defines the reference: the
  nodes evaluated one by one in topological order. `Execution` is the main loop of a task as a step
  system, in which workers, timers, the loop, approvals, aborts and restarts move in any order, and
  `Refinement` proves its invariant. `Confluence`, `StoredSuccess`, `Effects` and `RetryCut` draw the
  conclusions. `TaskRun` is the same loop in its own form: a class whose fields are the variables that the
  closures of `executeTask` share and whose methods are those closures. Pool, channel and timers are
  sequences there (`Traffic`), and sending needs room in the channel. Each method is proved to be a step of
  `Execution`.
- **The Redis stream queue** (`StreamIds`, `StreamQueue`, `QueueSafety`). Redis is a state and every
  command one atomic step of one of any number of clients.
- **Shutdown protocols** of the worker pool (`WorkerPool`) and of the document indexer (`Indexer`).
- **The distributed execution lock** (`WorkflowLock`).
- **The event hub** (`Hub`): bounded replay buffers in arrays that shift in place, an LRU list, and
  subscription counters.
- **Span aggregation** (`Spans`, `SpanStore`): interval unions, descendants, and a bounded store with
  an index.
- **Smaller cores**: the calculator (`Calculator`), the chunker (`Chunker`), the weighted cursor
  (`PriorityQueue`) and the rate limiter (`Limiter`).

`Wrappers` and `Counting` hold what several of these share.

A node function is a deterministic function of the node's key, its input and the attempt number.
Everything else that the code cannot foresee is chosen freely: completion order, timers, crashes,
expiry, timeouts, which sub-queue has a message. Times are integers on a monotone clock, and the
calculator's floats are reals.

## What the proofs found

Some promises hold only under a condition. The code is modelled as it is; the condition is proved.

- A failed attempt is stored as `failed` even when the node will be tried again. A task that is cut
  between two attempts takes that state as final. However often a task is cut and restarted, it ends
  like the uninterrupted one if and only if at every cut each such node would have failed in all its
  remaining attempts (`RetryCut.CutsHarmlessIff`; `RetryCut.RetryCanBeLost` is a run that goes wrong).
- What is stored as succeeded stays so and never runs again, whatever the cuts, as long as every approval
  names a node that waits for one (`StoredSuccess.SucceededNeverRunsAgain`). `ApproveNode` looks at the
  task's state only: in any run that has stopped, an approval that names a node stored as succeeded
  replaces what is stored (`StoredSuccess.UndueApprovalReplaces`; `StoredSuccess.SuccessCanBeReplaced` is
  a run that does). The other results about whole runs of a task assume the same of approvals.
- `nextStreamID` parses both parts of an ID as signed 64-bit numbers. Exactly the IDs whose sequence part
  is 2^63 − 1 or more, or whose time part is 2^63 or more, have no successor for it, and a consumed tail
  with such an ID is not trimmed when nothing is pending. The stamps of Redis's own clock reach neither
  (`QueueSafety.QuiescentTrim`; `QueueSafety.PinnedTail` is a run for each such ID).
- Low priority is not to starve. A backlogged sub-queue is served within six calls unless exactly one other
  is backlogged and wins the cursor; then it may never be served. Normal wins over low, low over high, and
  high over normal (`PriorityQueues.ServedIff`). So nothing starves if and only if the number of backlogged
  sub-queues is not two (`PriorityQueues.FairIff`).
- A call that finds nothing has asked every sub-queue if and only if it had time for two rounds; with one
  round it misses the sub-queue after the cursor (`PriorityQueues.MissedSeesAllIff`,
  `PriorityQueues.OneRoundMissesOne`).
- `SpanStore.Link` keeps every linked trace findable if and only if no other retained trace has the
  same task (`SpanStores.LinkedFindableIff`, `SpanStores.SharedTask`).
- A holder that overruns the lock's TTL can come to share the lock, and this is the only way: whoever asks
  becomes a second owner if and only if the key has expired or is gone (`WorkflowLock.SecondOwnerIff`,
  `WorkflowLock.TwoOwnersOneOverran`; `WorkflowLock.OverrunShares` is a run).
- The rate limiter admits at most 2·limit − 1 requests in one window length, and for every limit there are
  calls that attain this (`Limiters.BurstBound`, `Limiters.BoundIsTight`).
- The comment on `InputsOf` promises the order in which the edges were defined; the code sorts by key. The
  two agree if and only if the edges into the node were defined in the order of their sources' keys
  (`Dags.InputsInDefinitionOrderIff`; `Dags.DefinitionOrderLost` is a workflow where they differ). Either
  way the order is the same at every execution, which is what the comment wants it for.
- A subscriber is to be sent the recent events first. Until the last of them it is sent nothing else if and
  only if no event of the task is published meanwhile; otherwise old and new events come mixed, each in
  its own order (`Hub.BacklogAloneIff`, `Hub.HeardAll`).

## Model

| member | source | states |
|---|---|---|
| Dags.BuildDAG | internal/scheduler/dag.go:65-150 | succeeds iff there are nodes, keys are unique and non-empty, types valid, edges known and unique and the graph acyclic; then `Order` is the topological order in which keys come by the position of their last predecessor and, where that is the same, by key, and `InDegree` holds the true in-degrees; an error names a fault the input has, a cycle only if there is one |
| Dags.KahnSort | internal/scheduler/dag.go:113-143 | the queue loop is sound and complete for acyclic graphs, and orders keys by their last predecessors and then by key |
| Graphs.TieBreakUnique | internal/scheduler/dag.go:113-143 | only one topological order is so, whatever the order of the maps that are walked |
| Sorting.LeqIff | internal/scheduler/dag.go:126 | keys are compared as in a dictionary: a prefix comes first, otherwise the first difference decides |
| Dags.KahnExit | internal/scheduler/dag.go:113-143 | when the queue is empty the order is complete and topological, or a cycle is left |
| Dags.ReadyNodes | internal/scheduler/dag.go:154-163 | exactly the keys with in-degree zero that are not done, in order of key |
| Dags.InputsOf | internal/scheduler/dag.go:168-182 | exactly the predecessors, sorted, whatever the order of the map |
| Dags.InputsInDefinitionOrderIff | internal/scheduler/dag.go:165-182 | the predecessors come in the order in which their edges were defined iff that order is the order of their keys |
| Dags.DefinitionOrderLost | internal/scheduler/dag.go:165-182 | a runnable workflow in which the two orders differ |
| Evaluation.AssembleInput | internal/scheduler/scheduler.go:1257-1283 | the input is the text assembled from the predecessors' results, or the task's input |
| Evaluation.AssembledIsInput | internal/scheduler/scheduler.go:1257-1283 | an input node, and one whose predecessors have no output, gets the task input; a sole predecessor's output is passed on as it is; of several, exactly those with an output are listed, once each, in key order, each under its label and with a blank line between |
| Evaluation.InputFixedByPreds | internal/scheduler/scheduler.go:1257-1283 | the input is fixed once the predecessors have succeeded: later results do not change it |
| Evaluation.RefEquation | internal/scheduler/scheduler.go:873-1044 | the reference evaluation satisfies, at every node, the equation that its predecessors' conclusions determine it |
| Refinement.AttemptsFailIff | internal/model/retry.go:74-76 | the attempts of a node from one number on conclude with failure iff each of them, up to the retry limit, fails |
| Refinement.AttemptsSucceedIff | internal/model/retry.go:74-76 | they conclude with an output iff it is that of the first attempt, within the retry limit, that does not fail |
| Evaluation.SkippedIffAncestorFailed | internal/scheduler/scheduler.go:806-818 | a node is skipped iff some ancestor failed |
| Graphs.LastAmong | internal/scheduler/scheduler.go:1141-1156 | the last node of the order that has a result |
| Evaluation.FinalOutput | internal/scheduler/scheduler.go:1141-1156 | the result of the last output node that has one; if no output node has one, the last result of all; if there is none, nothing |
| Refinement.RunInv | internal/scheduler/scheduler.go:777-1044 | every world of every run, with restarts that lose no retry, approvals of waiting nodes and aborts, satisfies the invariant: each node carries the reference input and heads for the reference conclusion |
| Refinement.NextInv | internal/scheduler/scheduler.go:777-1044 | each step of the loop, a worker, a timer, an approval of a waiting node, an abort or such a restart keeps it |
| Refinement.TakeFailInv | internal/scheduler/scheduler.go:1004-1012 | failure propagation keeps accounting and in-degrees exact |
| Refinement.RestoredInv | internal/scheduler/scheduler.go:930-948 | a restore from sound stored states, in any combination, gives a world that satisfies the invariant |
| Confluence.RunRefinesSequential | internal/scheduler/scheduler.go:777-1044 | whatever the completion order and however often the task is cut and restarted, as long as approvals name waiting nodes and no cut loses a retry, a run that ends has the results, status and stored states of evaluating the nodes one by one |
| Confluence.EndedSkipsExactly | internal/scheduler/scheduler.go:797-818 | at the end every node has a conclusion and is stored as skipped iff a node upstream is stored as failed |
| StoredSuccess.SucceededNeverRunsAgain | internal/scheduler/scheduler.go:917-948 | once a success is stored it stays stored with the same output, and its node is never again in the pool or on a timer, at any later point of the run and over any restarts, lossy ones included, as long as approvals name waiting nodes |
| StoredSuccess.UndueApprovalReplaces | internal/scheduler/scheduler.go:232-257 | after any run that has stopped, an approval of a node stored as succeeded is a step, and it replaces the stored state |
| StoredSuccess.SuccessCanBeReplaced | internal/scheduler/scheduler.go:232-257 | a run of a valid task at whose end a stored success has become a stored failure |
| Confluence.Accounting | internal/scheduler/scheduler.go:797-1026 | `remaining` counts the nodes without a conclusion, in-degrees count the predecessors that have not succeeded, and conclusions and submitted inputs are the reference's, at every point of every run outside the pause and abort exits |
| Confluence.Progress | internal/scheduler/scheduler.go:950-955 | at the select with work left some node is in the pool, in the channel or on a timer |
| TaskVars.ChannelNeverFull | internal/scheduler/scheduler.go:778-779 | with pool, channel and timers as sequences, jobs, outcomes and timers together never exceed the number of nodes, which is the capacity of `done` |
| TaskRuns.TaskRun.WorkerFinishes | internal/scheduler/scheduler.go:873-892 | a worker that finishes any job of the pool finds room in the channel; the job leaves the pool once and its outcome enters the channel once |
| Confluence.LoopTerminates | internal/scheduler/scheduler.go:950-1044 | the loop takes a bounded number of steps under every scheduling and any retry budgets |
| RetryCut.CutsHarmlessIff | internal/scheduler/scheduler.go:917-948 | a run with any number of cuts and restarts, at any points, and approvals of waiting nodes ends with the uninterrupted outcome iff at each cut every node caught between two attempts would fail in all that are left |
| RetryCut.RetryCanBeLost | internal/scheduler/scheduler.go:935-941 | a run of a valid task, cut during a retry, whose restart ends with another outcome |
| Effects.StepStores | internal/scheduler/scheduler.go:797-1042 | for each step of a worker, the loop, an abort or an approval, what is stored for each node afterwards |
| Effects.RequestPauses | internal/scheduler/scheduler.go:968-975 | a request for approval stops the loop and stores nothing |
| Effects.ApprovalTakesEffect | internal/scheduler/scheduler.go:232-257 | after the next restart an approved node has its comment as its result, and a rejected one has failed |
| Skipping.WalksEquation | internal/scheduler/scheduler.go:809-818 | in an acyclic graph the number of walks from a node satisfies the recurrence over its successors |
| Skipping.StackShrinks | internal/scheduler/scheduler.go:809-818 | popping a node and pushing its successors lowers the number of walks below the stack, so the loop without a visited set ends |
| TaskRuns.TaskRun.MarkSkipped | internal/scheduler/scheduler.go:797-804 | a node without a conclusion gets one, once, and is counted once |
| TaskRuns.TaskRun.SkipDownstream | internal/scheduler/scheduler.go:809-818 | exactly the nodes downstream that have no conclusion are skipped, `remaining` falls by their number, and the in-degree of every node falls by the number of walks to it from the failed one, as the loop without a visited set lowers it |
| TaskRuns.TaskRun.SubmitReady | internal/scheduler/scheduler.go:894-902 | exactly the ready nodes enter the pool, each with its assembled input |
| TaskRuns.TaskRun.HandleOutcome | internal/scheduler/scheduler.go:955-1022 | success, retry, pause and final failure each change the variables as the step of the protocol does |
| TaskRuns.TaskRun.HandleEnd | internal/scheduler/scheduler.go:1027-1043 | the end of the context marks as cancelled exactly the nodes not yet submitted or concluded, and leaves the loop with nothing remaining |
| TaskRuns.TaskRun.Restore | internal/scheduler/scheduler.go:917-948 | the stored states, listed in any order, lead to one restored world: successes keep their output, everything downstream of a failed or skipped node is skipped, and `remaining` and in-degrees are those of the rest |
| TaskRuns.TaskRun.Run | internal/scheduler/scheduler.go:950-1044 | from any world that satisfies the invariant the loop ends and keeps it, and unless it paused or the context ended its outcome is the sequential one and the task is reported as failed, or as succeeded with the sequential output |
| TaskRuns.TaskRun.Resume | internal/scheduler/scheduler.go:917-1044 | restore and loop together: from sound stored states the task ends as if it had never been cut |
| TaskRuns.TaskRun.End | internal/scheduler/scheduler.go:1046-1093 | a stopped task is reported as failed iff a node has failed; otherwise what is reported is what evaluating the nodes one by one reports |
| TaskVars.OutcomeIsStep | internal/scheduler/scheduler.go:955-1022 | the variables after an outcome describe the world after a step of the protocol |
| TaskVars.RestoredIsStep | internal/scheduler/scheduler.go:930-948 | once every stored row has been read, in whatever order, the variables are coherent and describe the restored world |
| StreamIds.ParseLast | internal/queue/queue.go:341-352 | numbers are read in base ten |
| StreamIds.NextStreamIdIs | internal/queue/queue.go:341-352 | on the text of an ID, `nextStreamID` gives the text of its successor, or nothing Redis accepts when the sequence part overflows |
| StreamIds.SuccessorLeast | internal/queue/queue.go:334-352 | the successor is the least ID strictly above: an ID is below it iff it is at most the argument |
| StreamIds.MemberRoundTrip | internal/queue/queue.go:508-511 | cutting a retry member at its first colon gives back the payload and the due time |
| QueueSafety.TrimConsumed | internal/queue/queue.go:298-332 | trims below the least pending ID, or below the successor of the last delivered one, or nothing; returns the number of entries trimmed |
| QueueSafety.NothingNeededIsTrimmed | internal/queue/queue.go:298-332 | in any interleaving of any clients, an entry that disappears has been delivered and is not pending |
| QueueSafety.PendingHasBody | internal/queue/queue.go:526-539 | every pending message still has the body it was added with |
| QueueSafety.QuiescentTrim | internal/queue/queue.go:298-352 | with nothing pending, trimming leaves exactly the undelivered entries iff the last delivered ID has a successor or there was nothing to trim |
| QueueSafety.PinnedTail | internal/queue/queue.go:298-352 | for every ID without a successor, a run that submits, delivers and finishes a job and then trims: nothing is pending, and the delivered entry is still in the stream |
| QueueSafety.AcceptedIsKept | internal/queue/queue.go:393-666 | every accepted task is at any time in the stream undelivered or pending, in the retry set, in the dead letters, in a promoter's hands, or acknowledged by its worker |
| QueueSafety.PromotedOnce | internal/queue/queue.go:559-593 | each insertion of a member is in the set, in one promoter's hands or promoted, for any number of promoters at once |
| QueueSafety.AdmissionBound | internal/queue/queue.go:373-398 | with k clients the stream never exceeds limit − 1 + k plus the entries that were requeued |
| QueueSafety.MaxLenNeverTrims | internal/queue/queue.go:373-398 | with limit + k at most MAXLEN and no requeues, MAXLEN is never reached |
| QueueSafety.RefusedIff | internal/queue/queue.go:373-398 | a job is refused iff a limit is set and the stream has reached it |
| QueueSafety.NackedGoesTo | internal/queue/queue.go:458-522 | a job whose retries are spent goes to the dead letters, one with retries left to the retry set, with its attempt counted; nothing else goes there |
| QueueSafety.AddedIsOwn | internal/queue/queue.go:373-666 | what enters the stream is the job that was admitted, taken from the retry set or claimed, under a new greatest ID |
| WorkerPool.NeverSendsOnClosed | internal/worker/pool.go:249-343 | no interleaving leads to a send on the closed channel |
| WorkerPool.AtMostOnce | internal/worker/pool.go:171-269 | a job is reported at most as often as executed, executed at most as often as sent, and sent at most once |
| WorkerPool.AcceptedRunsOnce | internal/worker/pool.go:171-343 | when `Shutdown` returned and no timeout fired, every job has been executed and reported exactly once if its `Submit` returned true, and never otherwise |
| WorkerPool.RefusedOnlyIf | internal/worker/pool.go:249-269 | `Submit` turns a job away only after shutdown began, a timeout fired or the context ended |
| WorkerPool.OpenPoolTakes | internal/worker/pool.go:249-269 | while the gate is open a job passes both checks, and it is accepted when the channel takes it |
| WorkerPool.ShutdownNeverStuck | internal/worker/pool.go:278-343 | until `Shutdown` returns, some goroutine can move without a timeout |
| WorkerPool.WorkFalls | internal/worker/pool.go:249-343 | once shutdown has begun the work left never grows, and every step of a goroutine that is not a timeout lowers it |
| WorkerPool.ShutdownEnds | internal/worker/pool.go:278-343 | so between any two points of a run after that, the steps that are not timeouts number at most the work left at the first |
| Indexer.CleanShutdownProcessedAll | internal/rag/indexer.go:110-193 | when `Shutdown` returned nil the queue is empty, and exactly the accepted documents have been processed, each once |
| Indexer.AtMostOnce | internal/rag/indexer.go:110-193 | no document is processed twice or without having been accepted |
| Indexer.RefusedAfterStop | internal/rag/indexer.go:110-125 | once the stop signal is out, a document not yet accepted never is |
| Indexer.RefusedIff | internal/rag/indexer.go:110-125 | a document is refused iff the indexer is stopped or, past that check, the queue is full |
| Indexer.WorkFalls | internal/rag/indexer.go:162-192 | after the stop signal the work left never grows and falls with every step of a worker |
| Indexer.WorkerCanMove | internal/rag/indexer.go:162-192 | after the stop signal a worker that has not exited can move |
| WorkflowLock.TwoOwnersOneOverran | internal/scheduler/wflock.go:71-140 | of two owners of one workflow's lock, on any instances, one is past its TTL |
| WorkflowLock.SecondOwnerIff | internal/scheduler/wflock.go:71-111 | whoever asks for an owned workflow becomes a second owner iff the key is absent or expired, and then the first owner is past its TTL |
| WorkflowLock.MutualExclusion | internal/scheduler/wflock.go:71-140 | if every owner is within its TTL, no workflow has two |
| WorkflowLock.NobodyRemovesALiveLock | internal/scheduler/wflock.go:113-140 | no step of anyone, release script included, removes or replaces the key of an owner that is in time and has not begun to release |
| WorkflowLock.FlagsHonest | internal/scheduler/wflock.go:71-132 | a local flag stands for a caller of that instance that holds the lock |
| WorkflowLock.RefusedIff | internal/scheduler/wflock.go:71-111 | a caller is refused iff its own instance holds the workflow or, past that check, the key is present |
| WorkflowLock.KeysChange | internal/scheduler/wflock.go:71-140 | acquiring sets the caller's token for the TTL, releasing removes that entry and no other |
| WorkflowLock.OverrunShares | internal/scheduler/wflock.go:71-140 | a run with two owners at once, one of which overran |
| WorkflowLock.MemoryWorkflowLock.Acquire | internal/scheduler/wflock.go:155-172 | refused iff the workflow is locked; otherwise a fresh lease |
| WorkflowLock.MemoryWorkflowLock.Release | internal/scheduler/wflock.go:155-172 | unlocks its own workflow once; a second release changes nothing |
| Hub.ReplayBuffer.Shift | internal/task/hub.go:277-287 | the in-place shift leaves exactly the last 64 events |
| Hub.LastOfEnds | internal/task/hub.go:277-287 | what is kept is the end of the events, 64 of them or all |
| Hub.ReplayBuffer.Backlog | internal/task/hub.go:203-206 | the backlog is a fresh copy, so later shifts do not alter it |
| Hub.PublishTracks | internal/task/hub.go:260-288 | publishing keeps: each retained task's buffer is the last 64 of its events since its last removal, and the list holds exactly the retained tasks, least recently published first |
| Hub.RemoveTracks | internal/task/hub.go:292-312 | evicting or dropping a task keeps the same |
| Hub.Replay.AppendReplay | internal/task/hub.go:260-288 | the history grows by the event, after an eviction of the least recently published task iff a new task meets a full table; tokens leave no trace |
| Hub.Replay.EvictReplay | internal/task/hub.go:292-303 | evicts the least recently published task iff the table is full; then there is room |
| Hub.AppendRecords | internal/task/hub.go:260-303 | tokens are not recorded; any other event is, after the removal of the task that has published least recently iff a new task meets a full table |
| Hub.EventHub.Subscribe | internal/task/hub.go:185-208 | refused iff the true number of subscriptions, in all or of the user, is at its limit; otherwise one subscription more with an empty channel, and as backlog a copy of exactly the last 64 events since the task's last removal |
| Hub.EventHub.SendBacklog | internal/task/hub.go:209-216 | after the lock is given up the backlog is offered event by event, with any events published before each of them; every channel gets what it is sent in that order, as far as it has room |
| Hub.HeardAll | internal/task/hub.go:209-257 | the new channel is sent the whole backlog, and every event of the task published meanwhile, each in order |
| Hub.BacklogAloneIff | internal/task/hub.go:209-257 | it is sent the backlog alone iff no event of the task is published before the last event is sent |
| Hub.OfferedFits | internal/task/hub.go:209-257 | a channel takes events in order up to 128, and what comes after that is dropped |
| Hub.EventHub.Unsubscribe | internal/task/hub.go:217-241 | ends that subscription, once; the task's buffer is dropped iff this was its last one |
| Hub.EventHub.Publish | internal/task/hub.go:245-257 | every subscriber of the task, and no other, is offered the event; full queues are counted as dropped |
| Hub.RegisterInv | internal/task/hub.go:185-216 | registering keeps both counters equal to the true subscription counts and within their limits |
| Hub.DeregisterInv | internal/task/hub.go:217-241 | so does ending a subscription |
| Spans.MergeLength | internal/observability/tracing/store.go:556-579 | merging sorted intervals gives the measure of their union |
| Spans.CoveredTime | internal/observability/tracing/store.go:536-580 | the covered time is the measure of the union of the children's intervals clipped to the parent |
| Spans.ChildAlone | internal/observability/tracing/store.go:530-580 | one child covers exactly the time it shares with its parent |
| Spans.ChildrenTogether | internal/observability/tracing/store.go:530-580 | several cover the union of what each covers |
| Spans.ChildrenAre | internal/observability/tracing/store.go:515-528 | the children of a span are the spans that name it as their parent |
| Spans.CoveredWithin | internal/observability/tracing/store.go:515-580 | it lies between zero and the parent's duration |
| Spans.ComputeSelfTimes | internal/observability/tracing/store.go:515-528 | every span's self time is its duration minus what its children cover, without the clamp, and nothing else changes |
| Spans.OverlapNotCountedTwice | internal/observability/tracing/store.go:530-580 | a child inside another child adds nothing |
| Spans.DescendantsOf | internal/observability/tracing/store.go:628-647 | exactly the transitive closure of the parent links, also when they are cyclic |
| Spans.BelowIsLeast | internal/observability/tracing/store.go:628-647 | that closure is the least set that holds the children of the root and of its own members |
| Spans.QueueWait | internal/observability/tracing/store.go:596-625 | never negative; zero without an execution span or without an earlier span outside its subtree, and otherwise the shortest gap to such a span |
| SpanStores.EnsuredKeeps | internal/observability/tracing/store.go:201-223 | creating a trace, with evictions, keeps the listing exact, bounded and the index right |
| SpanStores.EnsuredTraces | internal/observability/tracing/store.go:201-232 | only the oldest trace goes, only for a new one, and only when the store is full; the others stay as they are |
| SpanStores.LinkedTraces | internal/observability/tracing/store.go:237-256 | the first caller that names an owner stays the owner, the last that names a task has the trace, and nothing else of it changes |
| SpanStores.OwnerStays | internal/observability/tracing/store.go:167-256 | over any calls, a trace's owner does not change as long as the trace is retained |
| SpanStores.ReceivedKeeps | internal/observability/tracing/store.go:178-194 | the spans a trace has stay, in order; a full trace refuses the newest and is marked as truncated |
| SpanStores.LinkedFindableIff | internal/observability/tracing/store.go:237-256 | linking keeps every linked trace findable iff no other retained trace has the task |
| SpanStores.SharedTask | internal/observability/tracing/store.go:201-256 | a sequence of calls after which a linked trace is no longer found |
| SpanStores.SpanStore.Link | internal/observability/tracing/store.go:237-256 | creates the trace if needed, replaces its old index entry and links it |
| SpanStores.SpanStore.ExportSpan | internal/observability/tracing/store.go:167-196 | a span is kept or, with the trace full, counted as rejected and the trace marked |
| SpanStores.SpanStore.TraceForTask | internal/observability/tracing/store.go:273-281 | the answer is a trace of that task, and there is one if any trace is linked and all are findable |
| Calculators.EvalExpr | internal/tool/registry.go:248-258 | the parser with its moving position computes the function on texts that the following three rows are about |
| Calculators.EvaluatesEveryTree | internal/tool/registry.go:248-372 | any well-formed text, with any blanks and parentheses, evaluates to the value of its tree, or to the division-by-zero error iff the tree divides by zero |
| Calculators.AcceptedHasTree | internal/tool/registry.go:248-372 | every accepted text is one of those, and the result is its tree's value |
| Calculators.WrittenTreeKeepsValue | internal/tool/registry.go:271-372 | every tree, written with the parentheses it needs, evaluates to its value with usual precedence and left associativity |
| Calculators.SumsMean | internal/tool/registry.go:271-300 | in a tree, plus and minus are the sum and the difference of the two values |
| Calculators.ProductsMean | internal/tool/registry.go:303-333 | times and divided by are the product and the quotient, which a zero on the right leaves without a value |
| Calculators.DigitsOne | internal/tool/registry.go:352-372 | a digit stands for its value |
| Calculators.DigitsConcat | internal/tool/registry.go:352-372 | digits are read in base ten, the first ones for the most |
| Calculators.PointValue | internal/tool/registry.go:352-372 | the value of digits, a point and digits is that of all the digits in base ten, moved by one place for each digit after the point |
| Calculators.DecimalIff | internal/tool/registry.go:352-372 | a number is digits, with at most one point among or around them and at least one digit |
| Calculators.SumOfProduct | internal/tool/registry.go:271-333 | `a+b*c` adds the product |
| Calculators.LeftToRight | internal/tool/registry.go:271-300 | `a-b-c` subtracts both |
| Calculators.QuotientFirst | internal/tool/registry.go:303-333 | `a/b*c` multiplies the quotient |
| Calculators.TrailingRejected | internal/tool/registry.go:248-258 | an expression that is followed by neither an operator nor the end is refused as such |
| Calculators.NothingRejected | internal/tool/registry.go:338-342 | blanks alone are refused as incomplete |
| Chunkers.Chunk | internal/rag/service.go:51-116 | the chunks are the windows of the blocks that greedily merge exactly the kept lines, for any configured size and overlap |
| Chunkers.ChunkLosesNothing | internal/rag/service.go:51-116 | no chunk is empty or longer than the size, and dropping the overlaps and rejoining the blocks with newlines gives back the non-blank trimmed lines in order |
| Chunkers.ChunksDetermined | internal/rag/service.go:51-116 | text, size and overlap determine the chunks: whatever meets `Chunk`'s contract is the same list |
| Chunkers.MergedOnce | internal/rag/service.go:70-92 | there is only one way to split the lines into parts that each take as many lines as fit |
| Chunkers.WindowsRejoin | internal/rag/service.go:92-113 | the windows of a block, without the overlaps, are the block; each is longer than the overlap |
| Chunkers.KeptIgnoresTrim | internal/rag/service.go:51-60 | trimming the whole text first changes no kept line |
| Chunkers.LinesJoin | internal/rag/service.go:51-60 | the lines hold no line break, and joined with line breaks they are the text |
| Chunkers.TrimDrops | internal/rag/service.go:51-60 | trimming takes away white space at both ends, all of it and nothing else |
| Chunkers.TwoLines | internal/rag/service.go:70-92 | two lines share a block iff their lengths without the line break fit |
| Chunkers.WindowAt | internal/rag/service.go:92-113 | each window but the last is full and begins one step after the one before; the last ends with the block |
| PriorityQueues.PriorityQueue.Dequeue | internal/queue/priority.go:63-135 | the nested loops do what the pure scan does, for any answers of the sub-queues: a message, none, or an error that ends the call |
| PriorityQueues.RoundsHonest | internal/queue/priority.go:63-135 | a call returns the first message or error that a sub-queue answers with, and nothing only if every answer was no message |
| PriorityQueues.LoneServed | internal/queue/priority.go:63-135 | a lone backlogged sub-queue is served, unless the call had time for one round and missed it; then the cursor stands on it, so the next call serves it |
| PriorityQueues.ServedIff | internal/queue/priority.go:11-18 | a backlogged sub-queue is served within six calls from every cursor, or within any number, iff the backlogged ones are not two or it is the one of the two that wins |
| PriorityQueues.FairIff | internal/queue/priority.go:11-18 | every backlogged sub-queue is served within six calls from every cursor, or within any number, iff the backlogged ones are not two |
| PriorityQueues.RoundsReachable | internal/queue/priority.go:63-135 | the cursor and its counter stay in range over any calls |
| PriorityQueues.SixInARow | internal/queue/priority.go:63-135 | from any reachable cursor, six calls on three backlogged sub-queues serve high three times, normal twice and low once |
| PriorityQueues.WinnerReached | internal/queue/priority.go:78-86 | with two backlogged sub-queues the cursor settles on one of them within a bounded number of calls |
| PriorityQueues.OtherStarves | internal/queue/priority.go:78-86 | from then on every call serves that one |
| PriorityQueues.OneRoundMissesOne | internal/queue/priority.go:63-135 | a call with time for one round that finds nothing has tried all sub-queues but the one after the cursor |
| PriorityQueues.MissedSeesAllIff | internal/queue/priority.go:63-135 | a call that returns nothing has found every sub-queue it tried empty, and has tried all of them iff it had time for at least two rounds |
| Limiters.MemoryLimiter.Allow | internal/ratelimit/limiter.go:106-132 | the decision depends on the key's own window alone, and no other key's later window changes |
| Limiters.CallMeans | internal/ratelimit/limiter.go:106-132 | a call opens a window or is counted in the open one; it is allowed while the count is within the limit, and what remains is the difference |
| Limiters.SweepUnseen | internal/ratelimit/limiter.go:135-143 | sweeping changes no window that a later call could see |
| Limiters.SweptDrops | internal/ratelimit/limiter.go:135-143 | sweeping forgets exactly the keys whose window has expired |
| Limiters.Drive | internal/ratelimit/limiter.go:106-143 | over any calls for any keys, a key's calls are decided as its own times alone decide |
| Limiters.BurstBound | internal/ratelimit/limiter.go:106-132 | any half-open interval of one window length admits at most 2·limit − 1 calls |
| Limiters.BoundIsTight | internal/ratelimit/limiter.go:106-132 | for every limit, and every window of at least two ticks, there are calls that attain the bound |

## Left out

- TaskRuns.TaskRun.Run: restarts and approvals are steps of `Execution` only; the class runs one loop to its end, to a pause or to the end of its context.
- Dags.BuildDAG: node names, configuration other than the retry limit, and error texts are not modelled.
- PriorityQueues.PriorityQueue.Dequeue: the deadline is modelled by how many rounds it allows, any number here.
- Limiters.BoundIsTight: a window of one tick; windows of zero or negative length are in `Allow` but not in the bound.
- Calculators.EvaluatesEveryTree: values are exact reals; range errors and rounding of floats are not modelled.
- Scheduler: a cancelled node whose error reaches the loop before the abort, jobs of a paused task that are still in the pool when it is resumed, a pool that rejects a submit, task deadlines (they store `failed`), workflows edited between two runs, a failing read of the stored states, and of `firstErr` all but whether a node has failed.
- Scheduler: `RetryPolicy.Delay` uses floats and jitter; a timer may fire at any moment instead.
- Queue: failing Redis commands, among them an XPENDING error that is taken as nothing pending, a crash between ZREM and XADD, MAXLEN trimming below its limit, malformed payloads, and the round limit of `Recover`. Two retry entries with the same due time and payload are one member, so conservation is stated per task ID.
- Queue: `InMemoryQueue`.
- Worker pool: `inflight` is a plain counter, so the panic of a `sync.WaitGroup` whose `Add` from zero races with the release of its waiter is not modelled; panics inside jobs, the `running` map and metrics.
- Lock: the path without Redis and the path that degrades on a Redis error; tokens are assumed unique.
- Hub.EventHub.SendBacklog: of what others do meanwhile only publishing is modelled, and its effects on the buffers and the drop count are left to `Publish`.
- Hub: changes of the limits at run time. `container/list` is a sequence and channels are bounded sequences.
- Span store: the trace tree, `Recent`, and times as floats (they are integers here).
- Chunker: invalid UTF-8.
- HTTP handlers, repositories, models, caches, metrics and front ends.
