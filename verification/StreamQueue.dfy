/**
 The Redis stream queue (`internal/queue/queue.go`) under any interleaving of any number of clients.

 Redis is a state and every Redis command is one atomic step.  A client is where its goroutine
 stands between two commands of `Enqueue`, `Dequeue`, `nack`, `promoteDueRetries`, `Recover` or
 `TrimConsumed`.  Assumed: commands succeed and MAXLEN trims nothing (`AdmissionBound` says when).
 */
module StreamQueue {
  import opened Wrappers
  import opened StreamIds

  /** The payload: only the task and its attempt count matter to the queue. */
  datatype Job = Job(taskId: int, attempt: nat)

  /** A member of the retry set; `StreamIds.MemberRoundTrip` is its text form. */
  datatype Member = Member(dueAt: int, job: Job)

  datatype Redis = Redis(
    stream: map<Id, Job>,
    lastId: Id,                 // the greatest ID ever given out
    delivered: Id,              // the group's last-delivered-id
    pending: set<Id>,
    retry: set<Member>,
    dlq: seq<Job>,
    lost: seq<Id>)              // dead letters that record a message without a body

  datatype Pc =
    | Idle
    | Admitted(job: Job)                            // Enqueue: XLEN was below the limit
    | Holding(id: Id, job: Job)                     // Dequeue returned the message
    | Nacked(id: Id, job: Job, again: bool)         // nack: the body has been read
    | Missing(id: Id)                               // nack: there was no body
    | Acking(id: Id)                                // nack: stored elsewhere, XACK is next
    | Promoting(todo: seq<Member>)
    | InHand(member: Member, todo: seq<Member>)     // between ZREM and XADD
    | Recovering(claimed: seq<(Id, Job)>)
    | RecoverAcking(id: Id, claimed: seq<(Id, Job)>)
    | TrimGot(last: Id)                             // XINFO answered
    | TrimReady(safe: Id)                           // XPENDING answered

  /** What happened so far. */
  datatype History = History(
    bodies: map<Id, Job>,       // every entry ever added
    accepted: set<int>,         // tasks whose Enqueue returned nil
    finished: set<int>,         // tasks whose worker acknowledged the message
    inserted: multiset<Member>, // ZADDs that added a member
    readded: multiset<Member>,  // members promoted to the stream
    requeued: nat)              // XADDs that bypass admission

  datatype World = World(redis: Redis, clients: map<int, Pc>, past: History)

  datatype Action =
    | CheckAdmit(job: Job) | AddNew(id: Id)
    | ReadGroup(id: Id) | Finish | NackRead(again: bool) | NackRetry(dueAt: int, advance: bool) | NackDead
    | RecordLost | AckNow
    | ListDue(due: seq<Member>) | Remove | Readd(id: Id) | PromoteEnd
    | Claim(ids: seq<Id>) | RecoverAdd(id: Id) | RecoverAck | RecoverEnd
    | TrimInfo | TrimPending(lower: Id) | Trim
    | Crash

  // ---------- Redis commands ----------

  /** An ID that XADD may give out: above all others, and two unsigned 64-bit numbers. */
  predicate FreshId(r: Redis, id: Id) {
    Below(r.lastId, id) && Fits(id)
  }

  function XAdd(r: Redis, id: Id, job: Job): Redis {
    r.(stream := r.stream[id := job], lastId := id)
  }

  predicate Undelivered(r: Redis, id: Id) {
    id in r.stream && Below(r.delivered, id)
  }

  /** XREADGROUP `>` with COUNT 1 gives the least undelivered entry. */
  ghost predicate NextUndelivered(r: Redis, id: Id) {
    Undelivered(r, id) && forall x :: Undelivered(r, x) ==> AtMost(id, x)
  }

  function XReadGroup(r: Redis, id: Id): Redis {
    r.(delivered := id, pending := r.pending + {id})
  }

  function XAck(r: Redis, id: Id): Redis {
    r.(pending := r.pending - {id})
  }

  /** XPENDING's Lower. */
  ghost predicate IsLower(r: Redis, id: Id) {
    id in r.pending && forall x :: x in r.pending ==> AtMost(id, x)
  }

  function XTrimMinId(r: Redis, safe: Id): Redis {
    r.(stream := map id | id in r.stream && !Below(id, safe) :: r.stream[id])
  }

  // ---------- Steps ----------

  predicate Admit(limit: int, r: Redis) {
    limit <= 0 || |r.stream| < limit
  }

  function Bodies(r: Redis, ids: seq<Id>): seq<(Id, Job)>
    requires forall i :: 0 <= i < |ids| ==> ids[i] in r.stream
  {
    seq(|ids|, i requires 0 <= i < |ids| => (ids[i], r.stream[ids[i]]))
  }

  /** Client `c` is where action `a` can happen. */
  ghost predicate Enabled(w: World, c: int, a: Action) {
    c in w.clients &&
    var pc, r := w.clients[c], w.redis;
    match a
    case CheckAdmit(_) => pc.Idle?
    case AddNew(id) => pc.Admitted? && FreshId(r, id)
    case ReadGroup(id) => pc.Idle? && NextUndelivered(r, id)
    case Finish => pc.Holding?
    case NackRead(_) => pc.Holding?
    case NackRetry(_, _) => pc.Nacked? && pc.again
    case NackDead => pc.Nacked? && !pc.again
    case RecordLost => pc.Missing?
    case AckNow => pc.Acking?
    case ListDue(due) => pc.Idle? && forall i :: 0 <= i < |due| ==> due[i] in r.retry
    case Remove => pc.Promoting? && pc.todo != []
    case Readd(id) => pc.InHand? && FreshId(r, id)
    case PromoteEnd => pc.Promoting? && pc.todo == []
    case Claim(ids) => pc.Idle? && forall i :: 0 <= i < |ids| ==> ids[i] in r.pending && ids[i] in r.stream
    case RecoverAdd(id) => pc.Recovering? && pc.claimed != [] && FreshId(r, id)
    case RecoverAck => pc.RecoverAcking?
    case RecoverEnd => pc.Recovering? && pc.claimed == []
    case TrimInfo => pc.Idle?
    case TrimPending(lower) => pc.TrimGot? && (r.pending != {} ==> IsLower(r, lower))
    case Trim => pc.TrimReady?
    case Crash => !pc.InHand?
  }

  function Retried(m: Pc, dueAt: int, advance: bool): Member
    requires m.Nacked?
  {
    Member(dueAt, if advance then m.job.(attempt := m.job.attempt + 1) else m.job)
  }

  ghost function RedisAfter(w: World, c: int, a: Action): Redis
    requires Enabled(w, c, a)
  {
    var pc, r := w.clients[c], w.redis;
    match a
    case AddNew(id) => XAdd(r, id, pc.job)
    case ReadGroup(id) => XReadGroup(r, id)
    case Finish => XAck(r, pc.id)
    case NackRetry(dueAt, advance) => r.(retry := r.retry + {Retried(pc, dueAt, advance)})
    case NackDead => r.(dlq := r.dlq + [pc.job])
    case RecordLost => r.(lost := r.lost + [pc.id])
    case AckNow => XAck(r, pc.id)
    case Remove => r.(retry := r.retry - {pc.todo[0]})
    case Readd(id) => XAdd(r, id, pc.member.job)
    case RecoverAdd(id) => XAdd(r, id, pc.claimed[0].1)
    case RecoverAck => XAck(r, pc.id)
    case Trim => XTrimMinId(r, pc.safe)
    case _ => r
  }

  ghost function PcAfter(limit: int, w: World, c: int, a: Action): Pc
    requires Enabled(w, c, a)
  {
    var pc, r := w.clients[c], w.redis;
    match a
    case CheckAdmit(job) => if Admit(limit, r) then Admitted(job) else Idle
    case ReadGroup(id) => Holding(id, r.stream[id])
    case NackRead(again) => if pc.id in r.stream then Nacked(pc.id, r.stream[pc.id], again) else Missing(pc.id)
    case NackRetry(_, _) => Acking(pc.id)
    case NackDead => Acking(pc.id)
    case RecordLost => Acking(pc.id)
    case ListDue(due) => Promoting(due)
    case Remove => if pc.todo[0] in r.retry then InHand(pc.todo[0], pc.todo[1..]) else Promoting(pc.todo[1..])
    case Readd(_) => Promoting(pc.todo)
    case Claim(ids) => Recovering(Bodies(r, ids))
    case RecoverAdd(_) => RecoverAcking(pc.claimed[0].0, pc.claimed[1..])
    case RecoverAck => Recovering(pc.claimed)
    case TrimInfo => if r.delivered == ZERO then Idle else TrimGot(r.delivered)
    case TrimPending(lower) =>
      if r.pending != {} then TrimReady(lower)
      else (match Successor(pc.last) case None => Idle case Some(next) => TrimReady(next))
    case _ => Idle
  }

  ghost function PastAfter(w: World, c: int, a: Action): History
    requires Enabled(w, c, a)
  {
    var pc, r, h := w.clients[c], w.redis, w.past;
    match a
    case AddNew(id) => h.(bodies := h.bodies[id := pc.job], accepted := h.accepted + {pc.job.taskId})
    case Finish => h.(finished := h.finished + {pc.job.taskId})
    case NackRetry(dueAt, advance) =>
      var m := Retried(pc, dueAt, advance);
      if m in r.retry then h else h.(inserted := h.inserted[m := h.inserted[m] + 1])
    case Readd(id) =>
      h.(bodies := h.bodies[id := pc.member.job], readded := h.readded[pc.member := h.readded[pc.member] + 1],
         requeued := h.requeued + 1)
    case RecoverAdd(id) => h.(bodies := h.bodies[id := pc.claimed[0].1], requeued := h.requeued + 1)
    case _ => h
  }

  ghost predicate Next(limit: int, w: World, w': World, c: int, a: Action) {
    && Enabled(w, c, a)
    && w' == World(RedisAfter(w, c, a), w.clients[c := PcAfter(limit, w, c, a)], PastAfter(w, c, a))
  }

  ghost predicate Init(w: World) {
    && w.redis == Redis(map[], ZERO, ZERO, {}, {}, [], [])
    && (forall c :: c in w.clients ==> w.clients[c] == Idle)
    && w.past == History(map[], {}, {}, multiset{}, multiset{}, 0)
  }

  ghost predicate Run(limit: int, ws: seq<World>, actors: seq<int>, actions: seq<Action>) {
    && |ws| == |actions| + 1 && |actors| == |actions| && Init(ws[0])
    && forall i :: 0 <= i < |actions| ==> Next(limit, ws[i], ws[i + 1], actors[i], actions[i])
  }
}
