/**
 The document indexer's shutdown protocol (`internal/rag/indexer.go`): any number of calls of
 `Enqueue` and of `Shutdown`, a read-write lock, a stop signal, and workers that drain the queue
 before they leave.  Every lock operation, channel operation and document is one step.
 */
module Indexer {
  import opened Counting

  /** A call of `Enqueue`; its key is the document. */
  datatype Enqueuer =
    | Calling
    | Reading                  // holds the read lock
    | Cleared                  // saw that the indexer is not stopped
    | Unlocking(ok: bool)      // result known, RUnlock is next
    | Returned(ok: bool)

  /** A call of `Shutdown`. */
  datatype Closer = Asking | Writing | Signalled | Joining | Clean | TimedOut

  datatype Worker = Selecting | Indexing(doc: int) | Draining | DrainIndexing(doc: int) | Exited

  datatype World = World(
    stopped: bool,
    queue: seq<int>,
    enqueuers: map<int, Enqueuer>,
    closers: map<int, Closer>,
    workers: map<int, Worker>,
    processed: multiset<int>)

  datatype Action =
    | RLock | CheckStopped | TrySend | RUnlock
    | Lock | Stop | Unlock | Join | Expire
    | Receive | SeeStop | DrainOne | DrainEmpty | Process

  predicate IsReader(e: Enqueuer) {
    e.Reading? || e.Cleared? || e.Unlocking?
  }

  predicate IsWriter(s: Closer) {
    s.Writing? || s.Signalled?
  }

  ghost predicate NoReader(w: World) {
    forall e :: e in w.enqueuers ==> !IsReader(w.enqueuers[e])
  }

  ghost predicate NoWriter(w: World) {
    forall s :: s in w.closers ==> !IsWriter(w.closers[s])
  }

  ghost predicate EnqueueStep(cap: nat, w: World, w': World, e: int, a: Action) {
    e in w.enqueuers &&
    match a
    case RLock => w.enqueuers[e].Calling? && NoWriter(w) && w' == w.(enqueuers := w.enqueuers[e := Reading])
    case CheckStopped =>
      w.enqueuers[e].Reading?
        && w' == w.(enqueuers := w.enqueuers[e := if w.stopped then Unlocking(false) else Cleared])
    case TrySend =>
      && w.enqueuers[e].Cleared?
      && w' == if |w.queue| < cap
               then w.(queue := w.queue + [e], enqueuers := w.enqueuers[e := Unlocking(true)])
               else w.(enqueuers := w.enqueuers[e := Unlocking(false)])
    case RUnlock => w.enqueuers[e].Unlocking? && w' == w.(enqueuers := w.enqueuers[e := Returned(w.enqueuers[e].ok)])
    case _ => false
  }

  ghost predicate AllExited(w: World) {
    forall k :: k in w.workers ==> w.workers[k].Exited?
  }

  ghost predicate CloseStep(w: World, w': World, s: int, a: Action) {
    s in w.closers &&
    match a
    case Lock => w.closers[s].Asking? && NoReader(w) && NoWriter(w) && w' == w.(closers := w.closers[s := Writing])
    case Stop => w.closers[s].Writing? && w' == w.(stopped := true, closers := w.closers[s := Signalled])
    case Unlock => w.closers[s].Signalled? && w' == w.(closers := w.closers[s := Joining])
    case Join => w.closers[s].Joining? && AllExited(w) && w' == w.(closers := w.closers[s := Clean])
    case Expire => w.closers[s].Joining? && w' == w.(closers := w.closers[s := TimedOut])
    case _ => false
  }

  ghost predicate WorkStep(w: World, w': World, k: int, a: Action) {
    k in w.workers &&
    match a
    case Receive =>
      w.workers[k].Selecting? && w.queue != []
        && w' == w.(queue := w.queue[1..], workers := w.workers[k := Indexing(w.queue[0])])
    case SeeStop => w.workers[k].Selecting? && w.stopped && w' == w.(workers := w.workers[k := Draining])
    case DrainOne =>
      w.workers[k].Draining? && w.queue != []
        && w' == w.(queue := w.queue[1..], workers := w.workers[k := DrainIndexing(w.queue[0])])
    case DrainEmpty => w.workers[k].Draining? && w.queue == [] && w' == w.(workers := w.workers[k := Exited])
    case Process =>
      && (w.workers[k].Indexing? || w.workers[k].DrainIndexing?)
      && w' == w.(processed := w.processed[w.workers[k].doc := w.processed[w.workers[k].doc] + 1],
                  workers := w.workers[k := if w.workers[k].Indexing? then Selecting else Draining])
    case _ => false
  }

  ghost predicate Next(cap: nat, w: World, w': World, who: int, a: Action) {
    EnqueueStep(cap, w, w', who, a) || CloseStep(w, w', who, a) || WorkStep(w, w', who, a)
  }

  /** A document is refused exactly when the indexer has been stopped or, past that check, the queue is full. */
  lemma RefusedIff(cap: nat, w: World, w': World, e: int, a: Action)
    requires EnqueueStep(cap, w, w', e, a) && (a.CheckStopped? || a.TrySend?)
    ensures e in w'.enqueuers
    ensures w'.enqueuers[e] == Unlocking(false) <==> if a.CheckStopped? then w.stopped else |w.queue| >= cap
    ensures a.TrySend? && w'.enqueuers[e] != Unlocking(false) ==>
      w'.enqueuers[e] == Unlocking(true) && w'.queue == w.queue + [e]
  {
  }

  ghost predicate Init(w: World) {
    && w == World(false, [], w.enqueuers, w.closers, w.workers, multiset{})
    && (forall e :: e in w.enqueuers ==> w.enqueuers[e] == Calling)
    && (forall s :: s in w.closers ==> w.closers[s] == Asking)
    && w.workers.Keys != {} && (forall k :: k in w.workers ==> w.workers[k] == Selecting)
  }

  ghost predicate Run(cap: nat, ws: seq<World>, who: seq<int>, actions: seq<Action>) {
    && |ws| == |actions| + 1 && |who| == |actions| && Init(ws[0])
    && forall i :: 0 <= i < |actions| ==> Next(cap, ws[i], ws[i + 1], who[i], actions[i])
  }

  // ---------- The lock makes the check and the send one ----------

  ghost predicate LockInv(w: World) {
    && (NoReader(w) || NoWriter(w))
    && (forall s, u :: s in w.closers && u in w.closers && IsWriter(w.closers[s]) && IsWriter(w.closers[u]) ==> s == u)
  }

  /** Once stopped, nobody is still about to send. */
  ghost predicate StopInv(w: World) {
    && (w.stopped ==> forall e :: e in w.enqueuers ==> !w.enqueuers[e].Cleared?)
    && (forall s :: s in w.closers && !w.closers[s].Asking? && !w.closers[s].Writing? ==> w.stopped)
  }

  ghost predicate ExitInv(w: World) {
    && w.workers.Keys != {}
    && (forall k :: k in w.workers && (w.workers[k].Draining? || w.workers[k].DrainIndexing?) ==> w.stopped)
    && (forall k :: k in w.workers && w.workers[k].Exited? ==> w.stopped && w.queue == [])
    && (forall s :: s in w.closers && w.closers[s].Clean? ==> AllExited(w))
  }

  lemma LockStays(cap: nat, w: World, w': World, who: int, a: Action)
    requires LockInv(w) && Next(cap, w, w', who, a)
    ensures LockInv(w')
  {
    if EnqueueStep(cap, w, w', who, a) {
      assert NoReader(w) ==> a.RLock?;
      assert NoWriter(w) ==> NoWriter(w');
    } else if CloseStep(w, w', who, a) && !a.Lock? {
      assert NoReader(w) ==> NoReader(w');
      assert NoWriter(w) ==> NoWriter(w');
    }
  }

  lemma StopStays(cap: nat, w: World, w': World, who: int, a: Action)
    requires LockInv(w) && StopInv(w) && Next(cap, w, w', who, a)
    ensures StopInv(w')
  {
    if CloseStep(w, w', who, a) && a.Stop? {
      assert IsWriter(w.closers[who]);
      forall e | e in w.enqueuers ensures !w.enqueuers[e].Cleared? {
        assert NoReader(w);
        assert !IsReader(w.enqueuers[e]);
      }
    }
  }

  lemma ExitStays(cap: nat, w: World, w': World, who: int, a: Action)
    requires StopInv(w) && ExitInv(w) && Next(cap, w, w', who, a)
    ensures ExitInv(w')
  {
    if WorkStep(w, w', who, a) {
      assert forall s :: s in w.closers && w.closers[s].Clean? ==> w.workers[who].Exited?;
    }
  }

  // ---------- Every accepted document is processed exactly once ----------

  function IsWith(d: int): Worker -> bool {
    s => s == Indexing(d) || s == DrainIndexing(d)
  }

  function Accepted(enqueuers: map<int, Enqueuer>, d: int): int {
    if d in enqueuers && (enqueuers[d] == Unlocking(true) || enqueuers[d] == Returned(true)) then 1 else 0
  }

  ghost predicate DocInv(w: World, d: int) {
    Accepted(w.enqueuers, d) == multiset(w.queue)[d] + |Where(w.workers, IsWith(d))| + w.processed[d]
  }

  lemma DocStaysWithWorker(w: World, w': World, k: int, a: Action, d: int)
    requires DocInv(w, d) && WorkStep(w, w', k, a)
    ensures DocInv(w', d)
  {
    WhereChange(w.workers, k, w'.workers[k], IsWith(d));
    if w.queue != [] { assert w.queue == [w.queue[0]] + w.queue[1..]; }
    hide Where, Accepted;
  }

  lemma EnqueuerQueue(cap: nat, w: World, w': World, e: int, a: Action, d: int)
    requires EnqueueStep(cap, w, w', e, a)
    ensures Accepted(w'.enqueuers, d) - Accepted(w.enqueuers, d) == multiset(w'.queue)[d] - multiset(w.queue)[d]
    ensures w'.workers == w.workers && w'.processed == w.processed
  {
    assert w'.queue != w.queue ==> multiset(w'.queue) == multiset(w.queue) + multiset{e};
  }

  lemma DocStaysWithEnqueuer(cap: nat, w: World, w': World, e: int, a: Action, d: int)
    requires DocInv(w, d) && EnqueueStep(cap, w, w', e, a)
    ensures DocInv(w', d)
  {
    EnqueuerQueue(cap, w, w', e, a, d);
    hide EnqueueStep, Accepted, Where;
  }

  lemma DocStays(cap: nat, w: World, w': World, who: int, a: Action, d: int)
    requires DocInv(w, d) && Next(cap, w, w', who, a)
    ensures DocInv(w', d)
  {
    hide WorkStep, EnqueueStep, Where, IsWith;
    if WorkStep(w, w', who, a) {
      DocStaysWithWorker(w, w', who, a, d);
    } else if EnqueueStep(cap, w, w', who, a) {
      DocStaysWithEnqueuer(cap, w, w', who, a, d);
    }
  }

  lemma InitInv(w: World)
    requires Init(w)
    ensures LockInv(w) && StopInv(w) && ExitInv(w) && forall d :: DocInv(w, d)
  {
    forall d ensures DocInv(w, d) {
      WhereNone(w.workers, IsWith(d));
    }
  }

  lemma {:induction false} RunInv(cap: nat, ws: seq<World>, who: seq<int>, actions: seq<Action>, i: nat)
    requires Run(cap, ws, who, actions) && i < |ws|
    ensures LockInv(ws[i]) && StopInv(ws[i]) && ExitInv(ws[i]) && forall d :: DocInv(ws[i], d)
  {
    if i == 0 {
      InitInv(ws[0]);
    } else {
      RunInv(cap, ws, who, actions, i - 1);
      assert Next(cap, ws[i - 1], ws[i - 1 + 1], who[i - 1], actions[i - 1]);
      hide Next, LockInv, StopInv, ExitInv, DocInv;
      LockStays(cap, ws[i - 1], ws[i], who[i - 1], actions[i - 1]);
      StopStays(cap, ws[i - 1], ws[i], who[i - 1], actions[i - 1]);
      ExitStays(cap, ws[i - 1], ws[i], who[i - 1], actions[i - 1]);
      forall d ensures DocInv(ws[i], d) {
        DocStays(cap, ws[i - 1], ws[i], who[i - 1], actions[i - 1], d);
      }
    }
  }

  /** When some `Shutdown` has returned nil the queue is empty and every accepted document was processed once. */
  lemma CleanShutdownProcessedAll(cap: nat, ws: seq<World>, who: seq<int>, actions: seq<Action>, i: nat, s: int, d: int)
    requires Run(cap, ws, who, actions) && i < |ws| && s in ws[i].closers && ws[i].closers[s].Clean?
    requires d in ws[i].enqueuers
    ensures ws[i].queue == []
    ensures ws[i].processed[d] == if ws[i].enqueuers[d] in {Unlocking(true), Returned(true)} then 1 else 0
  {
    RunInv(cap, ws, who, actions, i);
    var w := ws[i];
    assert AllExited(w) && DocInv(w, d);
    var k := Member(w.workers.Keys);
    assert w.workers[k].Exited?;
    WhereNone(w.workers, IsWith(d));
  }

  /** Also without a clean end no document is processed twice, and none that was refused. */
  lemma AtMostOnce(cap: nat, ws: seq<World>, who: seq<int>, actions: seq<Action>, i: nat, d: int)
    requires Run(cap, ws, who, actions) && i < |ws|
    ensures ws[i].processed[d] <= Accepted(ws[i].enqueuers, d) <= 1
  {
    RunInv(cap, ws, who, actions, i);
    assert DocInv(ws[i], d);
  }

  /** A call of `Enqueue` that starts after some `Shutdown` has signalled is never accepted. */
  lemma RefusedAfterStop(cap: nat, ws: seq<World>, who: seq<int>, actions: seq<Action>, i: nat, e: int)
    requires Run(cap, ws, who, actions) && i < |actions| && ws[i].stopped
    requires e in ws[i].enqueuers && Accepted(ws[i].enqueuers, e) == 0
    ensures ws[i + 1].stopped && e in ws[i + 1].enqueuers && Accepted(ws[i + 1].enqueuers, e) == 0
  {
    RunInv(cap, ws, who, actions, i);
    assert Next(cap, ws[i], ws[i + 1], who[i], actions[i]);
  }

  // ---------- Draining comes to an end ----------

  function Credit(s: Worker): nat {
    match s
    case Selecting => 2
    case Indexing(_) => 3
    case Draining => 1
    case DrainIndexing(_) => 2
    case Exited => 0
  }

  ghost function Work(w: World): nat {
    2 * |w.queue| + Total(w.workers.Keys, w.workers, Credit)
  }

  /** Once stopped, every step of a worker uses up work and no other step adds any. */
  lemma WorkFalls(cap: nat, w: World, w': World, who: int, a: Action)
    requires StopInv(w) && w.stopped && Next(cap, w, w', who, a)
    ensures Work(w') <= Work(w)
    ensures WorkStep(w, w', who, a) ==> Work(w') < Work(w)
  {
    if WorkStep(w, w', who, a) {
      TotalChange(w.workers, who, w'.workers[who], Credit);
      hide Total;
      assert w'.workers == w.workers[who := w'.workers[who]];
    }
  }

  /** Once stopped, a worker that has not left can move: nothing but processing itself can hold `Shutdown` up. */
  lemma WorkerCanMove(cap: nat, w: World, k: int)
    requires w.stopped && k in w.workers && !w.workers[k].Exited?
    ensures exists w', a :: WorkStep(w, w', k, a)
  {
    match w.workers[k]
    case Selecting => assert WorkStep(w, w.(workers := w.workers[k := Draining]), k, SeeStop);
    case Draining =>
      if w.queue == [] {
        assert WorkStep(w, w.(workers := w.workers[k := Exited]), k, DrainEmpty);
      } else {
        var workers := w.workers[k := DrainIndexing(w.queue[0])];
        assert WorkStep(w, w.(queue := w.queue[1..], workers := workers), k, DrainOne);
      }
    case Indexing(d) =>
      assert WorkStep(w, w.(processed := w.processed[d := w.processed[d] + 1], workers := w.workers[k := Selecting]),
        k, Process);
    case DrainIndexing(d) =>
      assert WorkStep(w, w.(processed := w.processed[d := w.processed[d] + 1], workers := w.workers[k := Draining]),
        k, Process);
  }
}
