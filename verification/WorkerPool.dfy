/**
 The worker pool's shutdown protocol (`internal/worker/pool.go`): any number of calls of `Submit`
 against one `Shutdown`, with an atomic gate, an in-flight count, a job channel that gets closed and
 timeouts that may fire at any moment.  Every atomic operation is one step.
 */
module WorkerPool {
  import opened Counting

  /** A call of `Submit`; its key is the job it submits. */
  datatype Submitter =
    | Calling
    | Passed              // saw the gate open
    | Registered          // inflight.Add(1)
    | Sending             // saw the gate open again; in the select
    | Sent                // the channel took the job
    | Refused             // leaving without having sent
    | Returned(ok: bool)

  datatype Worker = Waiting | Busy(job: int) | Reporting(job: int) | Exited

  datatype Stage =
    | Open                // Shutdown has not been called
    | Draining            // waiting for inflight to reach zero
    | Closing             // saw it at zero; close(jobs) is next
    | Joining             // waiting for the workers
    | Over                // Shutdown has returned

  datatype World = World(
    closed: bool,                  // the gate
    inflight: int,
    jobs: seq<int>,                // the channel's buffer
    jobsClosed: bool,
    quit: bool,                    // set by timeouts only
    ctxDone: bool,                 // poolCtx
    stage: Stage,
    subs: map<int, Submitter>,
    workers: map<int, Worker>,
    ran: multiset<int>,            // executions
    reported: multiset<int>)       // calls of OnDone

  datatype Action =
    | Check | Register | CheckAgain | Send | GiveUp | Leave                // a submitter
    | Receive | ExitClosed | ExitQuit | Execute | Report                   // a worker
    | CloseGate | SeeZero | CloseJobs | Join | Timeout | ForceReturn       // Shutdown
    | CancelParent

  ghost predicate SubmitterStep(cap: nat, w: World, w': World, c: int, a: Action) {
    c in w.subs &&
    match a
    case Check => w.subs[c].Calling? && w' == w.(subs := w.subs[c := if w.closed then Returned(false) else Passed])
    case Register => w.subs[c].Passed? && w' == w.(inflight := w.inflight + 1, subs := w.subs[c := Registered])
    case CheckAgain => w.subs[c].Registered? && w' == w.(subs := w.subs[c := if w.closed then Refused else Sending])
    case Send =>
      && w.subs[c].Sending? && |w.jobs| < cap && !w.jobsClosed
      && w' == w.(jobs := w.jobs + [c], subs := w.subs[c := Sent])
    case GiveUp => w.subs[c].Sending? && (w.quit || w.ctxDone) && w' == w.(subs := w.subs[c := Refused])
    case Leave =>
      && (w.subs[c].Sent? || w.subs[c].Refused?)
      && w' == w.(inflight := w.inflight - 1, subs := w.subs[c := Returned(w.subs[c].Sent?)])
    case _ => false
  }

  /** A send on a closed channel panics, also when it is one of several ready cases of a select. */
  ghost predicate CanPanic(w: World) {
    w.jobsClosed && exists c :: c in w.subs && w.subs[c].Sending?
  }

  ghost predicate WorkerStep(w: World, w': World, k: int, a: Action) {
    k in w.workers &&
    match a
    case Receive =>
      w.workers[k].Waiting? && w.jobs != [] && w' == w.(jobs := w.jobs[1..], workers := w.workers[k := Busy(w.jobs[0])])
    case ExitClosed => w.workers[k].Waiting? && w.jobs == [] && w.jobsClosed
      && w' == w.(workers := w.workers[k := Exited])
    case ExitQuit => w.workers[k].Waiting? && w.quit && w' == w.(workers := w.workers[k := Exited])
    case Execute =>
      && w.workers[k].Busy?
      && var j := w.workers[k].job; w' == w.(ran := w.ran[j := w.ran[j] + 1], workers := w.workers[k := Reporting(j)])
    case Report =>
      && w.workers[k].Reporting?
      && var j := w.workers[k].job;
         w' == w.(reported := w.reported[j := w.reported[j] + 1], workers := w.workers[k := Waiting])
    case _ => false
  }

  ghost predicate AllExited(w: World) {
    forall k :: k in w.workers ==> w.workers[k].Exited?
  }

  ghost predicate ShutdownStep(w: World, w': World, a: Action) {
    match a
    case CloseGate => w.stage.Open? && w' == w.(closed := true, stage := Draining)
    case SeeZero => w.stage.Draining? && w.inflight == 0 && w' == w.(stage := Closing)
    case CloseJobs => w.stage.Closing? && w' == w.(jobsClosed := true, stage := Joining)
    case Join => w.stage.Joining? && AllExited(w) && w' == w.(ctxDone := true, stage := Over)
    case Timeout =>
      && (w.stage.Draining? || w.stage.Joining?)
      && w' == w.(quit := true, ctxDone := w.ctxDone || w.stage.Joining?)
    case ForceReturn => w.stage.Joining? && w.quit && w.ctxDone && w' == w.(stage := Over)
    case CancelParent => w' == w.(ctxDone := true)
    case _ => false
  }

  ghost predicate Next(cap: nat, w: World, w': World, who: int, a: Action) {
    SubmitterStep(cap, w, w', who, a) || WorkerStep(w, w', who, a) || ShutdownStep(w, w', a)
  }

  ghost predicate Init(w: World) {
    && w == World(false, 0, [], false, false, false, Open, w.subs, w.workers, multiset{}, multiset{})
    && (forall c :: c in w.subs ==> w.subs[c] == Calling)
    && w.workers.Keys != {} && (forall k :: k in w.workers ==> w.workers[k] == Waiting)
  }

  ghost predicate Run(cap: nat, ws: seq<World>, who: seq<int>, actions: seq<Action>) {
    && |ws| == |actions| + 1 && |who| == |actions| && Init(ws[0])
    && forall i :: 0 <= i < |actions| ==> Next(cap, ws[i], ws[i + 1], who[i], actions[i])
  }

  // ---------- Who is refused ----------

  /** Leaving or having left without the job being taken. */
  predicate TurnedAway(s: Submitter) {
    s.Refused? || s == Returned(false)
  }

  /** Whoever is turned away has a reason: the gate is closed, a timeout has fired or the context has ended. */
  ghost predicate Excused(w: World, c: int) {
    c in w.subs && TurnedAway(w.subs[c]) ==> w.closed || w.quit || w.ctxDone
  }

  lemma ExcusedStays(cap: nat, w: World, w': World, who: int, a: Action, c: int)
    requires Next(cap, w, w', who, a) && Excused(w, c)
    ensures Excused(w', c)
  {
  }

  lemma {:induction false} AlwaysExcused(cap: nat, ws: seq<World>, who: seq<int>, actions: seq<Action>, i: nat, c: int)
    requires Run(cap, ws, who, actions) && i < |ws|
    ensures Excused(ws[i], c)
  {
    if i > 0 {
      AlwaysExcused(cap, ws, who, actions, i - 1, c);
      assert Next(cap, ws[i - 1], ws[i - 1 + 1], who[i - 1], actions[i - 1]);
      hide Next;
      ExcusedStays(cap, ws[i - 1], ws[i], who[i - 1], actions[i - 1], c);
    }
  }

  /** `Submit` turns a job away only when shutdown has begun, a timeout has fired or the context has ended. */
  lemma RefusedOnlyIf(cap: nat, ws: seq<World>, who: seq<int>, actions: seq<Action>, i: nat, c: int)
    requires Run(cap, ws, who, actions) && i < |ws|
    requires c in ws[i].subs && TurnedAway(ws[i].subs[c])
    ensures ws[i].closed || ws[i].quit || ws[i].ctxDone
  {
    AlwaysExcused(cap, ws, who, actions, i, c);
  }

  /** In an open pool a job passes both checks, and the channel takes it as soon as there is room. */
  lemma OpenPoolTakes(cap: nat, w: World, w': World, c: int, a: Action)
    requires SubmitterStep(cap, w, w', c, a) && !w.closed
    ensures c in w'.subs
    ensures a.Check? ==> w'.subs[c] == Passed
    ensures a.CheckAgain? ==> w'.subs[c] == Sending
    ensures a.Send? ==> w'.jobs == w.jobs + [c] && w'.subs[c] == Sent
    ensures a.Leave? ==> w'.subs[c] == Returned(w.subs[c] == Sent)
  {
  }

  // ---------- The channel is never sent on after it is closed ----------

  predicate IsCounted(s: Submitter) {
    s.Registered? || s.Sending? || s.Sent? || s.Refused?
  }

  ghost predicate GateInv(w: World) {
    && w.inflight == |Where(w.subs, IsCounted)|
    && (!w.stage.Open? ==> w.closed)
    && (w.jobsClosed <==> w.stage.Joining? || w.stage.Over?)
    && (w.stage.Closing? || w.stage.Joining? || w.stage.Over? ==>
          forall c :: c in w.subs ==> !w.subs[c].Sending? && !w.subs[c].Sent?)
  }

  lemma GateStays(cap: nat, w: World, w': World, who: int, a: Action)
    requires GateInv(w) && Next(cap, w, w', who, a)
    ensures GateInv(w')
  {
    if SubmitterStep(cap, w, w', who, a) {
      WhereChange(w.subs, who, w'.subs[who], IsCounted);
      hide Where;
    } else if a.SeeZero? {
      forall c | c in w.subs ensures !IsCounted(w.subs[c]) {
        assert IsCounted(w.subs[c]) ==> c in Where(w.subs, IsCounted);
      }
    }
  }

  lemma {:induction false} GateHolds(cap: nat, ws: seq<World>, who: seq<int>, actions: seq<Action>, i: nat)
    requires Run(cap, ws, who, actions) && i < |ws|
    ensures GateInv(ws[i])
  {
    if i == 0 {
      assert forall c :: c in ws[0].subs ==> ws[0].subs[c] == Calling;
      WhereNone(ws[0].subs, IsCounted);
    } else {
      GateHolds(cap, ws, who, actions, i - 1);
      assert Next(cap, ws[i - 1], ws[i - 1 + 1], who[i - 1], actions[i - 1]);
      GateStays(cap, ws[i - 1], ws[i], who[i - 1], actions[i - 1]);
    }
  }

  /** In no interleaving does a submitter send on the closed channel, timeouts or not. */
  lemma NeverSendsOnClosed(cap: nat, ws: seq<World>, who: seq<int>, actions: seq<Action>, i: nat)
    requires Run(cap, ws, who, actions) && i < |ws|
    ensures !CanPanic(ws[i])
  {
    GateHolds(cap, ws, who, actions, i);
  }

  // ---------- Every accepted job runs exactly once ----------

  function IsBusy(j: int): Worker -> bool {
    s => s == Busy(j)
  }

  function IsReporting(j: int): Worker -> bool {
    s => s == Reporting(j)
  }

  function Taken(subs: map<int, Submitter>, j: int): int {
    if j in subs && (subs[j].Sent? || subs[j] == Returned(true)) then 1 else 0
  }

  /** A job that the channel took is in the buffer, with a worker, or executed. */
  ghost predicate JobInv(w: World, j: int) {
    && Taken(w.subs, j) == multiset(w.jobs)[j] + |Where(w.workers, IsBusy(j))| + w.ran[j]
    && w.ran[j] == |Where(w.workers, IsReporting(j))| + w.reported[j]
  }

  lemma HeadTaken(jobs: seq<int>, j: int)
    requires jobs != []
    ensures multiset(jobs)[j] == multiset(jobs[1..])[j] + if jobs[0] == j then 1 else 0
  {
    assert jobs == [jobs[0]] + jobs[1..];
  }

  lemma WorkerCounts(workers: map<int, Worker>, k: int, v: Worker, j: int)
    requires k in workers
    ensures |Where(workers[k := v], IsBusy(j))| ==
      |Where(workers, IsBusy(j))| - (if workers[k] == Busy(j) then 1 else 0) + if v == Busy(j) then 1 else 0
    ensures |Where(workers[k := v], IsReporting(j))| == |Where(workers, IsReporting(j))|
      - (if workers[k] == Reporting(j) then 1 else 0) + if v == Reporting(j) then 1 else 0
  {
    WhereChange(workers, k, v, IsBusy(j));
    WhereChange(workers, k, v, IsReporting(j));
    hide Where;
  }

  lemma JobStaysWithWorker(w: World, w': World, k: int, a: Action, j: int)
    requires JobInv(w, j) && WorkerStep(w, w', k, a)
    ensures JobInv(w', j)
  {
    assert w'.subs == w.subs && w'.workers == w.workers[k := w'.workers[k]];
    hide Where, Taken, IsBusy, IsReporting;
    WorkerCounts(w.workers, k, w'.workers[k], j);
    if a.Receive? { HeadTaken(w.jobs, j); }
  }

  lemma SubmitterJobs(cap: nat, w: World, w': World, c: int, a: Action, j: int)
    requires SubmitterStep(cap, w, w', c, a)
    ensures Taken(w'.subs, j) - Taken(w.subs, j) == multiset(w'.jobs)[j] - multiset(w.jobs)[j]
  {
    assert a.Send? ==> multiset(w'.jobs) == multiset(w.jobs) + multiset{c};
  }

  lemma JobStaysWithSubmitter(cap: nat, w: World, w': World, c: int, a: Action, j: int)
    requires JobInv(w, j) && SubmitterStep(cap, w, w', c, a)
    ensures JobInv(w', j)
  {
    SubmitterJobs(cap, w, w', c, a, j);
    assert w'.workers == w.workers && w'.ran == w.ran && w'.reported == w.reported;
    hide Where, SubmitterStep, Taken;
  }

  lemma JobStays(cap: nat, w: World, w': World, who: int, a: Action, j: int)
    requires JobInv(w, j) && Next(cap, w, w', who, a)
    ensures JobInv(w', j)
  {
    hide WorkerStep, SubmitterStep, Where, Taken;
    if WorkerStep(w, w', who, a) {
      JobStaysWithWorker(w, w', who, a, j);
    } else if SubmitterStep(cap, w, w', who, a) {
      JobStaysWithSubmitter(cap, w, w', who, a, j);
    }
  }

  /** Without a timeout a worker leaves only when the channel is closed and empty. */
  ghost predicate ExitInv(w: World) {
    && w.workers.Keys != {}
    && (!w.quit && (exists k :: k in w.workers && w.workers[k].Exited?) ==> w.jobsClosed && w.jobs == [])
    && (w.stage.Over? && !w.quit ==> AllExited(w))
  }

  lemma ExitStays(cap: nat, w: World, w': World, who: int, a: Action)
    requires GateInv(w) && ExitInv(w) && Next(cap, w, w', who, a)
    ensures ExitInv(w')
  {
    if WorkerStep(w, w', who, a) {
      assert who in w'.workers;
      if k :| k in w'.workers && k != who && w'.workers[k].Exited? { assert w.workers[k].Exited?; }
    }
  }

  lemma {:induction false} RunInv(cap: nat, ws: seq<World>, who: seq<int>, actions: seq<Action>, i: nat)
    requires Run(cap, ws, who, actions) && i < |ws|
    ensures GateInv(ws[i]) && ExitInv(ws[i]) && forall j :: JobInv(ws[i], j)
  {
    GateHolds(cap, ws, who, actions, i);
    if i == 0 {
      assert forall k :: k in ws[0].workers ==> ws[0].workers[k] == Waiting;
      assert forall c :: c in ws[0].subs ==> ws[0].subs[c] == Calling;
      forall j ensures JobInv(ws[0], j) {
        WhereNone(ws[0].workers, IsBusy(j));
        WhereNone(ws[0].workers, IsReporting(j));
      }
    } else {
      RunInv(cap, ws, who, actions, i - 1);
      assert Next(cap, ws[i - 1], ws[i - 1 + 1], who[i - 1], actions[i - 1]);
      ExitStays(cap, ws[i - 1], ws[i], who[i - 1], actions[i - 1]);
      forall j ensures JobInv(ws[i], j) {
        JobStays(cap, ws[i - 1], ws[i], who[i - 1], actions[i - 1], j);
      }
    }
  }

  /** At any time, even when timeouts fire, no job runs twice or is reported twice, and only accepted jobs run. */
  lemma AtMostOnce(cap: nat, ws: seq<World>, who: seq<int>, actions: seq<Action>, i: nat, j: int)
    requires Run(cap, ws, who, actions) && i < |ws|
    ensures ws[i].reported[j] <= ws[i].ran[j] <= Taken(ws[i].subs, j) <= 1
  {
    RunInv(cap, ws, who, actions, i);
    assert JobInv(ws[i], j);
  }

  /** If no timeout fired, then when `Shutdown` returns every accepted job ran once and was reported once. */
  lemma AcceptedRunsOnce(cap: nat, ws: seq<World>, who: seq<int>, actions: seq<Action>, i: nat, j: int)
    requires Run(cap, ws, who, actions) && i < |ws| && ws[i].stage.Over? && !ws[i].quit
    requires j in ws[i].subs
    ensures ws[i].ran[j] == ws[i].reported[j] == if ws[i].subs[j] == Returned(true) then 1 else 0
  {
    RunInv(cap, ws, who, actions, i);
    var w := ws[i];
    assert JobInv(w, j);
    assert AllExited(w);
    var k := Member(w.workers.Keys);
    assert w.workers[k].Exited?;
    assert forall x :: x in w.workers ==> w.workers[x] == Exited;
    WhereNone(w.workers, IsBusy(j));
    WhereNone(w.workers, IsReporting(j));
  }

  // ---------- Shutdown and blocked submitters do not wait for each other ----------

  /** The actions that need neither a timeout nor an outside event. */
  predicate OwnAction(a: Action) {
    !a.Timeout? && !a.ForceReturn? && !a.CancelParent?
  }

  ghost predicate CanMove(cap: nat, w: World) {
    exists w', who, a :: OwnAction(a) && Next(cap, w, w', who, a)
  }

  lemma WorkerCanMove(cap: nat, w: World, k: int)
    requires k in w.workers && !w.workers[k].Exited? && (w.jobs != [] || w.jobsClosed)
    ensures CanMove(cap, w)
  {
    match w.workers[k]
    case Waiting =>
      if w.jobs != [] {
        assert Next(cap, w, w.(jobs := w.jobs[1..], workers := w.workers[k := Busy(w.jobs[0])]), k, Receive);
      } else {
        assert Next(cap, w, w.(workers := w.workers[k := Exited]), k, ExitClosed);
      }
    case Busy(j) =>
      var ran := w.ran[j := w.ran[j] + 1];
      assert Next(cap, w, w.(ran := ran, workers := w.workers[k := Reporting(j)]), k, Execute);
    case Reporting(j) =>
      var reported := w.reported[j := w.reported[j] + 1];
      assert Next(cap, w, w.(reported := reported, workers := w.workers[k := Waiting]), k, Report);
  }

  lemma SubmitterCanMove(cap: nat, w: World, c: int)
    requires c in w.subs && IsCounted(w.subs[c]) && !w.jobsClosed
    ensures CanMove(cap, w) || (w.subs[c].Sending? && |w.jobs| >= cap && !w.quit)
  {
    if w.subs[c].Registered? {
      assert Next(cap, w, w.(subs := w.subs[c := if w.closed then Refused else Sending]), c, CheckAgain);
    } else if w.subs[c].Sending? {
      if |w.jobs| < cap {
        assert Next(cap, w, w.(jobs := w.jobs + [c], subs := w.subs[c := Sent]), c, Send);
      } else if w.quit {
        assert Next(cap, w, w.(subs := w.subs[c := Refused]), c, GiveUp);
      }
    } else {
      assert Next(cap, w, w.(inflight := w.inflight - 1, subs := w.subs[c := Returned(w.subs[c].Sent?)]), c, Leave);
    }
  }

  lemma DrainingCanMove(cap: nat, w: World)
    requires cap > 0 && GateInv(w) && ExitInv(w) && w.stage.Draining?
    ensures CanMove(cap, w)
  {
    if w.inflight == 0 {
      assert Next(cap, w, w.(stage := Closing), 0, SeeZero);
    } else {
      var c := Member(Where(w.subs, IsCounted));
      SubmitterCanMove(cap, w, c);
      if |w.jobs| >= cap && !w.quit {
        var k := Member(w.workers.Keys);
        assert w.workers[k].Exited? ==> w.jobsClosed;
        WorkerCanMove(cap, w, k);
      }
    }
  }

  lemma JoiningCanMove(cap: nat, w: World)
    requires GateInv(w) && w.stage.Joining?
    ensures CanMove(cap, w)
  {
    if AllExited(w) {
      assert Next(cap, w, w.(ctxDone := true, stage := Over), 0, Join);
    } else {
      var k :| k in w.workers && !w.workers[k].Exited?;
      WorkerCanMove(cap, w, k);
    }
  }

  /** From the moment `Shutdown` is called until it returns, somebody can always move without a timeout. */
  lemma ShutdownNeverStuck(cap: nat, ws: seq<World>, who: seq<int>, actions: seq<Action>, i: nat)
    requires cap > 0 && Run(cap, ws, who, actions) && i < |ws| && !ws[i].stage.Open? && !ws[i].stage.Over?
    ensures CanMove(cap, ws[i])
  {
    RunInv(cap, ws, who, actions, i);
    var w := ws[i];
    match w.stage
    case Draining => DrainingCanMove(cap, w);
    case Closing => assert Next(cap, w, w.(jobsClosed := true, stage := Joining), 0, CloseJobs);
    case Joining => JoiningCanMove(cap, w);
  }

  // ---------- Shutdown comes to an end ----------

  function SubmitterCredit(s: Submitter): nat {
    match s
    case Calling => 1
    case Passed => 3
    case Registered => 2
    case Sending => 5
    case Sent => 1
    case Refused => 1
    case Returned(_) => 0
  }

  function WorkerCredit(s: Worker): nat {
    match s
    case Waiting => 1
    case Busy(_) => 3
    case Reporting(_) => 2
    case Exited => 0
  }

  function StageCredit(s: Stage): nat {
    match s
    case Open => 4
    case Draining => 3
    case Closing => 2
    case Joining => 1
    case Over => 0
  }

  /** What is left to do. */
  ghost function Work(w: World): nat {
    3 * |w.jobs| + Total(w.subs.Keys, w.subs, SubmitterCredit) + Total(w.workers.Keys, w.workers, WorkerCredit)
    + StageCredit(w.stage)
  }

  lemma SubmitterWorkFalls(cap: nat, w: World, w': World, c: int, a: Action)
    requires w.closed && SubmitterStep(cap, w, w', c, a)
    ensures Work(w') < Work(w)
  {
    TotalChange(w.subs, c, w'.subs[c], SubmitterCredit);
    hide Total;
    assert w'.subs == w.subs[c := w'.subs[c]];
  }

  lemma WorkerWorkFalls(w: World, w': World, k: int, a: Action)
    requires WorkerStep(w, w', k, a)
    ensures Work(w') < Work(w)
  {
    TotalChange(w.workers, k, w'.workers[k], WorkerCredit);
    hide Total;
    assert w'.workers == w.workers[k := w'.workers[k]];
  }

  /** Once the gate is closed, every action of a submitter, a worker or `Shutdown` uses up work; nothing adds any. */
  lemma WorkFalls(cap: nat, w: World, w': World, who: int, a: Action)
    requires w.closed && !w.stage.Open? && Next(cap, w, w', who, a)
    ensures w'.closed && !w'.stage.Open? && Work(w') <= Work(w)
    ensures OwnAction(a) ==> Work(w') < Work(w)
  {
    hide Total;
    if SubmitterStep(cap, w, w', who, a) {
      SubmitterWorkFalls(cap, w, w', who, a);
    } else if WorkerStep(w, w', who, a) {
      WorkerWorkFalls(w, w', who, a);
    }
  }

  /** The actions from `i` up to `j` that need neither a timeout nor an outside event. */
  function OwnActions(actions: seq<Action>, i: nat, j: nat): nat
    requires i <= j <= |actions|
  {
    if i == j then 0 else OwnActions(actions, i, j - 1) + if OwnAction(actions[j - 1]) then 1 else 0
  }

  /** The own actions from `i` up to `j` are no more than the work that was used up. */
  ghost predicate WorkUsed(ws: seq<World>, actions: seq<Action>, i: nat, j: nat) {
    i <= j <= |actions| < |ws| && OwnActions(actions, i, j) + Work(ws[j]) <= Work(ws[i])
  }

  lemma WorkUsedMore(ws: seq<World>, actions: seq<Action>, i: nat, j: nat)
    requires WorkUsed(ws, actions, i, j) && j < |actions|
    requires Work(ws[j + 1]) <= Work(ws[j]) - if OwnAction(actions[j]) then 1 else 0
    ensures WorkUsed(ws, actions, i, j + 1)
  {
    hide Work;
  }

  lemma StageStays(cap: nat, w: World, w': World, who: int, a: Action)
    requires !w.stage.Open? && Next(cap, w, w', who, a)
    ensures !w'.stage.Open?
  {
  }

  lemma {:induction false} NotReopened(cap: nat, ws: seq<World>, who: seq<int>, actions: seq<Action>, i: nat, j: nat)
    requires Run(cap, ws, who, actions) && i <= j < |ws| && !ws[i].stage.Open?
    ensures !ws[j].stage.Open?
    decreases j
  {
    if i < j {
      NotReopened(cap, ws, who, actions, i, j - 1);
      assert Next(cap, ws[j - 1], ws[j - 1 + 1], who[j - 1], actions[j - 1]);
      hide Next;
      StageStays(cap, ws[j - 1], ws[j], who[j - 1], actions[j - 1]);
    }
  }

  lemma StepUsesWork(cap: nat, ws: seq<World>, who: seq<int>, actions: seq<Action>, i: nat)
    requires Run(cap, ws, who, actions) && i < |actions| && !ws[i].stage.Open?
    ensures Work(ws[i + 1]) <= Work(ws[i]) - if OwnAction(actions[i]) then 1 else 0
  {
    GateHolds(cap, ws, who, actions, i);
    assert Next(cap, ws[i], ws[i + 1], who[i], actions[i]);
    hide Next, Work, Run;
    WorkFalls(cap, ws[i], ws[i + 1], who[i], actions[i]);
  }

  /**
   Once `Shutdown` has been called, the number of actions still to come is bounded by the work left at
   that moment.  As long as it has not returned one is possible (`ShutdownNeverStuck`), so it returns
   unless somebody who can move is never scheduled.
   */
  lemma {:induction false} ShutdownEnds(cap: nat, ws: seq<World>, who: seq<int>, actions: seq<Action>, i: nat, j: nat)
    requires Run(cap, ws, who, actions) && i <= j < |ws| && !ws[i].stage.Open?
    ensures WorkUsed(ws, actions, i, j)
    decreases j
  {
    assert |ws| == |actions| + 1;
    if i < j {
      hide *;
      ShutdownEnds(cap, ws, who, actions, i, j - 1);
      WorkUsedNext(cap, ws, who, actions, i, j - 1);
    }
  }

  lemma WorkUsedNext(cap: nat, ws: seq<World>, who: seq<int>, actions: seq<Action>, i: nat, j: nat)
    requires Run(cap, ws, who, actions) && i <= j < |actions| && !ws[i].stage.Open? && WorkUsed(ws, actions, i, j)
    ensures WorkUsed(ws, actions, i, j + 1)
  {
    assert |ws| == |actions| + 1;
    hide *;
    NotReopened(cap, ws, who, actions, i, j);
    StepUsesWork(cap, ws, who, actions, j);
    WorkUsedMore(ws, actions, i, j);
  }
}
