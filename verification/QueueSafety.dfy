/**
 What every reachable state of the queue keeps: trimming deletes nothing that is still needed, every
 pending message has its body, no accepted task is lost, a member of the retry set is promoted once
 for each time it was inserted, and admission bounds the stream.
 */
module QueueSafety {
  import opened Counting
  import opened Wrappers
  import opened StreamIds
  import opened StreamQueue

  // ---------- What single steps do ----------

  /** A job is refused exactly when a limit is set and the stream has reached it. */
  lemma RefusedIff(limit: int, w: World, w': World, c: int, job: Job)
    requires Next(limit, w, w', c, CheckAdmit(job))
    ensures w'.redis == w.redis && w'.clients.Keys == w.clients.Keys
    ensures w'.clients[c].Idle? <==> limit > 0 && |w.redis.stream| >= limit
    ensures !w'.clients[c].Idle? ==> w'.clients[c] == Admitted(job)
  {
  }

  /** Only a job with no retry left enters the dead letters, only one with a retry left the retry set, as itself. */
  lemma NackedGoesTo(limit: int, w: World, w': World, c: int, a: Action)
    requires Next(limit, w, w', c, a)
    ensures w'.redis.dlq != w.redis.dlq ==>
      w.clients[c].Nacked? && !w.clients[c].again && w'.redis.dlq == w.redis.dlq + [w.clients[c].job]
    ensures w'.redis.lost != w.redis.lost ==>
      w.clients[c].Missing? && w'.redis.lost == w.redis.lost + [w.clients[c].id]
    ensures forall m :: m in w'.redis.retry && m !in w.redis.retry ==>
      w.clients[c].Nacked? && w.clients[c].again && a.NackRetry? && m.dueAt == a.dueAt
      && m.job.taskId == w.clients[c].job.taskId
      && m.job.attempt == w.clients[c].job.attempt + if a.advance then 1 else 0
    ensures forall m :: m in w.redis.retry && m !in w'.redis.retry ==>
      a.Remove? && w'.clients[c] == InHand(m, w.clients[c].todo[1..])
  {
  }

  /** An entry is added with the job that its client had admitted, held in hand or claimed, and only above the rest. */
  lemma AddedIsOwn(limit: int, w: World, w': World, c: int, a: Action, id: Id)
    requires Next(limit, w, w', c, a) && id in w'.redis.stream && id !in w.redis.stream
    ensures Below(w.redis.lastId, id) && w'.redis.lastId == id
    ensures match w.clients[c]
      case Admitted(job) => w'.redis.stream[id] == job
      case InHand(m, _) => w'.redis.stream[id] == m.job
      case Recovering(claimed) => claimed != [] && w'.redis.stream[id] == claimed[0].1
      case _ => false
  {
  }

  // ---------- The shape of reachable states ----------

  /** An entry that was added with this body and has been delivered. */
  ghost predicate Seen(r: Redis, h: History, id: Id, job: Job) {
    id in h.bodies && h.bodies[id] == job && AtMost(id, r.delivered)
  }

  ghost predicate AllSeen(r: Redis, h: History, claimed: seq<(Id, Job)>) {
    forall i :: 0 <= i < |claimed| ==> Seen(r, h, claimed[i].0, claimed[i].1)
  }

  /** Everything below `safe` has been delivered and acknowledged. */
  ghost predicate Trimmable(r: Redis, safe: Id) {
    forall x :: Below(x, safe) ==> AtMost(x, r.delivered) && x !in r.pending
  }

  ghost predicate PcOk(r: Redis, h: History, pc: Pc) {
    match pc
    case Holding(id, job) => Seen(r, h, id, job)
    case Nacked(id, job, _) => Seen(r, h, id, job)
    case Missing(id) => AtMost(id, r.delivered) && id !in r.stream
    case Acking(id) => AtMost(id, r.delivered)
    case Recovering(claimed) => AllSeen(r, h, claimed)
    case RecoverAcking(id, claimed) => AtMost(id, r.delivered) && AllSeen(r, h, claimed)
    case TrimGot(last) => AtMost(last, r.delivered)
    case TrimReady(safe) => Trimmable(r, safe)
    case _ => true
  }

  ghost predicate StreamOk(r: Redis, h: History) {
    && (forall id :: id in r.stream ==> id in h.bodies && h.bodies[id] == r.stream[id])
    && (forall id :: id in h.bodies ==> AtMost(id, r.lastId))
    && AtMost(r.delivered, r.lastId)
    && (forall id :: id in r.pending ==> id in r.stream && AtMost(id, r.delivered))
    && (forall id :: id in h.bodies && Below(r.delivered, id) ==> id in r.stream)
  }

  ghost predicate Pcs(w: World) {
    forall c {:trigger PcOk(w.redis, w.past, w.clients[c])} :: c in w.clients ==> PcOk(w.redis, w.past, w.clients[c])
  }

  ghost predicate Inv(w: World) {
    StreamOk(w.redis, w.past) && Pcs(w)
  }

  // ---------- Steps keep the shape ----------

  /** How Redis and the past may change under the feet of the other clients. */
  ghost predicate Grows(r: Redis, h: History, r': Redis, h': History) {
    && AtMost(r.delivered, r'.delivered)
    && (forall id :: id in h.bodies ==> id in h'.bodies && h'.bodies[id] == h.bodies[id])
    && (forall id :: id in r'.stream ==> id in r.stream || Below(r.delivered, id))
    && (forall id :: id in r'.pending ==> id in r.pending || Below(r.delivered, id))
  }

  lemma AtMostTransitive(a: Id, b: Id, c: Id)
    requires AtMost(a, b) && AtMost(b, c)
    ensures AtMost(a, c)
  {
  }

  lemma AllSeenStays(r: Redis, h: History, r': Redis, h': History, claimed: seq<(Id, Job)>)
    requires Grows(r, h, r', h') && AllSeen(r, h, claimed)
    ensures AllSeen(r', h', claimed)
  {
    forall i | 0 <= i < |claimed| ensures Seen(r', h', claimed[i].0, claimed[i].1) {
      assert Seen(r, h, claimed[i].0, claimed[i].1);
      AtMostTransitive(claimed[i].0, r.delivered, r'.delivered);
    }
  }

  lemma TrimmableStays(r: Redis, h: History, r': Redis, h': History, safe: Id)
    requires Grows(r, h, r', h') && Trimmable(r, safe)
    ensures Trimmable(r', safe)
  {
    forall x | Below(x, safe) ensures AtMost(x, r'.delivered) && x !in r'.pending {
      AtMostTransitive(x, r.delivered, r'.delivered);
      assert AtMost(x, r.delivered) && !Below(r.delivered, x);
    }
  }

  lemma PcStays(r: Redis, h: History, r': Redis, h': History, pc: Pc)
    requires Grows(r, h, r', h') && PcOk(r, h, pc)
    ensures PcOk(r', h', pc)
  {
    match pc
    case Recovering(claimed) => AllSeenStays(r, h, r', h', claimed);
    case RecoverAcking(id, claimed) => AllSeenStays(r, h, r', h', claimed);
    case TrimReady(safe) => TrimmableStays(r, h, r', h', safe);
    case _ =>
  }

  /** The text-level successor is the least ID above, so everything below it is at most `last`. */
  lemma TrimPendingOk(r: Redis, h: History, last: Id, lower: Id)
    requires StreamOk(r, h) && AtMost(last, r.delivered) && (r.pending != {} ==> IsLower(r, lower))
    ensures r.pending != {} ==> Trimmable(r, lower)
    ensures r.pending == {} && Successor(last).Some? ==> Trimmable(r, Successor(last).value)
  {
    if r.pending != {} {
      assert AtMost(lower, r.delivered);
    } else if Successor(last).Some? {
      forall x | Below(x, Successor(last).value) ensures AtMost(x, r.delivered) {
        SuccessorLeast(last, x);
        AtMostTransitive(x, last, r.delivered);
      }
    }
  }

  /** The acting client's new place, judged before Redis changes. */
  lemma PcAfterOk(limit: int, w: World, c: int, a: Action)
    requires Inv(w) && Enabled(w, c, a) && !a.ReadGroup?
    ensures PcOk(w.redis, w.past, PcAfter(limit, w, c, a))
  {
    var pc := w.clients[c];
    assert PcOk(w.redis, w.past, pc);
    hide Pcs;
    match a
    case TrimPending(lower) => TrimPendingOk(w.redis, w.past, pc.last, lower);
    case RecoverAdd(id) => assert Seen(w.redis, w.past, pc.claimed[0].0, pc.claimed[0].1);
    case _ =>
  }

  lemma XAddGrows(r: Redis, h: History, id: Id, job: Job, r': Redis, h': History)
    requires StreamOk(r, h) && FreshId(r, id)
    requires r'.stream == r.stream[id := job] && r'.lastId == id && r'.delivered == r.delivered
      && r'.pending == r.pending
    requires h'.bodies == h.bodies[id := job]
    ensures Grows(r, h, r', h') && StreamOk(r', h')
  {
    assert id !in h.bodies;
    assert Below(r.delivered, id);
  }

  lemma ReadGroupGrows(r: Redis, h: History, id: Id)
    requires StreamOk(r, h) && NextUndelivered(r, id)
    ensures Grows(r, h, XReadGroup(r, id), h) && StreamOk(XReadGroup(r, id), h)
    ensures Seen(XReadGroup(r, id), h, id, r.stream[id])
  {
    forall x | x in r.pending ensures AtMost(x, id) { AtMostTransitive(x, r.delivered, id); }
  }

  lemma TrimGrows(r: Redis, h: History, safe: Id)
    requires StreamOk(r, h) && Trimmable(r, safe)
    ensures Grows(r, h, XTrimMinId(r, safe), h) && StreamOk(XTrimMinId(r, safe), h)
  {
  }

  lemma AckGrows(r: Redis, h: History, id: Id, h': History)
    requires StreamOk(r, h) && h'.bodies == h.bodies
    ensures Grows(r, h, XAck(r, id), h') && StreamOk(XAck(r, id), h')
  {
  }

  /** Neither the stream nor its group changes. */
  lemma SameGrows(r: Redis, h: History, r': Redis, h': History)
    requires StreamOk(r, h) && h'.bodies == h.bodies
    requires r'.stream == r.stream && r'.lastId == r.lastId && r'.delivered == r.delivered && r'.pending == r.pending
    ensures Grows(r, h, r', h') && StreamOk(r', h')
  {
  }

  lemma RedisGrows(w: World, c: int, a: Action)
    requires Inv(w) && Enabled(w, c, a)
    ensures Grows(w.redis, w.past, RedisAfter(w, c, a), PastAfter(w, c, a))
    ensures StreamOk(RedisAfter(w, c, a), PastAfter(w, c, a))
  {
    var pc, r, h := w.clients[c], w.redis, w.past;
    assert PcOk(r, h, pc);
    assert a.Trim? ==> Trimmable(r, pc.safe);
    hide Pcs, PcOk, Grows, StreamOk, Trimmable;
    match a
    case AddNew(id) => XAddGrows(r, h, id, pc.job, RedisAfter(w, c, a), PastAfter(w, c, a));
    case Readd(id) => XAddGrows(r, h, id, pc.member.job, RedisAfter(w, c, a), PastAfter(w, c, a));
    case RecoverAdd(id) => XAddGrows(r, h, id, pc.claimed[0].1, RedisAfter(w, c, a), PastAfter(w, c, a));
    case ReadGroup(id) => ReadGroupGrows(r, h, id);
    case Trim => TrimGrows(r, h, pc.safe);
    case Finish => AckGrows(r, h, pc.id, PastAfter(w, c, a));
    case AckNow => AckGrows(r, h, pc.id, PastAfter(w, c, a));
    case RecoverAck => AckGrows(r, h, pc.id, PastAfter(w, c, a));
    case _ => SameGrows(r, h, RedisAfter(w, c, a), PastAfter(w, c, a));
  }

  lemma NextInv(limit: int, w: World, w': World, c: int, a: Action)
    requires Inv(w) && Next(limit, w, w', c, a)
    ensures Inv(w')
  {
    RedisGrows(w, c, a);
    if a.ReadGroup? { ReadGroupGrows(w.redis, w.past, a.id); } else { PcAfterOk(limit, w, c, a); }
    forall d | d in w'.clients ensures PcOk(w'.redis, w'.past, w'.clients[d]) {
      ActorOk(limit, w, w', c, a, d);
    }
  }

  lemma ActorOk(limit: int, w: World, w': World, c: int, a: Action, d: int)
    requires Pcs(w) && Next(limit, w, w', c, a) && d in w'.clients
    requires Grows(w.redis, w.past, w'.redis, w'.past)
    requires if a.ReadGroup? then PcOk(w'.redis, w'.past, w'.clients[c]) else PcOk(w.redis, w.past, w'.clients[c])
    ensures PcOk(w'.redis, w'.past, w'.clients[d])
  {
    if d != c {
      assert PcOk(w.redis, w.past, w.clients[d]);
      PcStays(w.redis, w.past, w'.redis, w'.past, w.clients[d]);
    } else if !a.ReadGroup? {
      PcStays(w.redis, w.past, w'.redis, w'.past, w'.clients[c]);
    }
  }

  lemma {:induction false} RunInv(limit: int, ws: seq<World>, actors: seq<int>, actions: seq<Action>, i: nat)
    requires Run(limit, ws, actors, actions) && i < |ws|
    ensures Inv(ws[i])
  {
    if i > 0 {
      RunInv(limit, ws, actors, actions, i - 1);
      NextInv(limit, ws[i - 1], ws[i - 1 + 1], actors[i - 1], actions[i - 1]);
    }
  }

  // ---------- Trimming ----------

  /** No step removes an entry that is undelivered or pending. */
  lemma NothingNeededIsTrimmed(limit: int, ws: seq<World>, actors: seq<int>, actions: seq<Action>, i: nat, id: Id)
    requires Run(limit, ws, actors, actions) && i < |actions|
    requires id in ws[i].redis.stream && id !in ws[i + 1].redis.stream
    ensures AtMost(id, ws[i].redis.delivered) && id !in ws[i].redis.pending && id !in ws[i + 1].redis.pending
  {
    RunInv(limit, ws, actors, actions, i);
    var w := ws[i];
    assert Next(limit, w, ws[i + 1], actors[i], actions[i]);
    assert PcOk(w.redis, w.past, w.clients[actors[i]]);
  }

  /** Without MAXLEN trimming `payloadOf` finds the body of every pending message, and it is the one that was sent. */
  lemma PendingHasBody(limit: int, ws: seq<World>, actors: seq<int>, actions: seq<Action>, i: nat, id: Id)
    requires Run(limit, ws, actors, actions) && i < |ws| && id in ws[i].redis.pending
    ensures id in ws[i].redis.stream && id in ws[i].past.bodies && ws[i].redis.stream[id] == ws[i].past.bodies[id]
  {
    RunInv(limit, ws, actors, actions, i);
  }

  lemma {:induction false} LowerExists(s: set<Id>)
    requires s != {}
    ensures exists m :: m in s && forall x :: x in s ==> AtMost(m, x)
  {
    var x :| x in s;
    if s - {x} == {} {
      assert forall y :: y in s ==> y in s - {x} || y == x;
    } else {
      LowerExists(s - {x});
      var m :| m in s - {x} && forall y :: y in s - {x} ==> AtMost(m, y);
      var least := if Below(x, m) then x else m;
      forall y | y in s ensures AtMost(least, y) {
        if y != x { assert y in s - {x}; }
      }
      assert least in s;
    }
  }

  lemma ZeroText(id: Id)
    requires Fits(id)
    ensures Render(id) != "" && (Render(id) == "0-0" <==> id == ZERO)
  {
    RenderRead(id);
    RenderRead(ZERO);
    assert Render(ZERO) == "0-0";
  }

  lemma TrimAtZero(r: Redis)
    ensures XTrimMinId(r, ZERO) == r
  {
    assert XTrimMinId(r, ZERO).stream == r.stream;
  }

  /** `TrimConsumed` with nobody else talking to Redis, on the text of the IDs. */
  method TrimConsumed(r: Redis) returns (r': Redis, trimmed: nat)
    requires Fits(r.delivered) && forall id :: id in r.pending ==> Fits(id)
    ensures trimmed == |r.stream| - |r'.stream|
    ensures r.delivered == ZERO ==> r' == r
    ensures r.delivered != ZERO && r.pending != {} ==> exists lower :: IsLower(r, lower) && r' == XTrimMinId(r, lower)
    ensures r.delivered != ZERO && r.pending == {} ==>
      r' == match Successor(r.delivered) case Some(next) => XTrimMinId(r, next) case None => r
  {
    var last := Render(r.delivered);
    ZeroText(r.delivered);
    if last == "" || last == "0-0" {
      return r, 0;
    }
    var safe := "";
    if r.pending != {} {
      LowerExists(r.pending);
      var lower :| lower in r.pending && forall x :: x in r.pending ==> AtMost(lower, x);
      assert IsLower(r, lower);
      safe := Render(lower);
      RenderRead(lower);
      ZeroText(lower);
      TrimAtZero(r);
    } else {
      safe := NextStreamId(last);
      NextStreamIdIs(r.delivered);
      if Successor(r.delivered).Some? { ZeroText(Successor(r.delivered).value); }
    }
    if safe == "" || safe == "0-0" {
      return r, 0;
    }
    match ReadId(safe)
    case None => return r, 0;      // XTRIM refuses the ID
    case Some(id) =>
      r' := XTrimMinId(r, id);
      TrimShrinks(r, id);
      trimmed := |r.stream| - |r'.stream|;
  }

  /**
   With nothing pending, trimming leaves exactly the undelivered entries, if and only if the last
   delivered ID has a successor or there was nothing to trim.
   */
  lemma QuiescentTrim(r: Redis, h: History)
    requires StreamOk(r, h) && r.pending == {} && r.delivered != ZERO
    ensures var r' := match Successor(r.delivered) case Some(next) => XTrimMinId(r, next) case None => r;
      (forall id :: id in r'.stream <==> Undelivered(r, id)) <==>
      Successor(r.delivered).Some? || forall id :: id in r.stream ==> Undelivered(r, id)
  {
    if Successor(r.delivered).Some? {
      forall id | id in r.stream
        ensures id in XTrimMinId(r, Successor(r.delivered).value).stream <==> Undelivered(r, id)
      {
        SuccessorLeast(r.delivered, id);
      }
    }
  }

  // ---------- A tail that is never trimmed ----------

  /** One client, alone with its first job. */
  ghost function Alone(r: Redis, pc: Pc, past: History): World {
    World(r, map[0 := pc], past)
  }

  ghost function Holds(id: Id, job: Job, delivered: Id, pending: set<Id>): Redis {
    Redis(map[id := job], id, delivered, pending, {}, [], [])
  }

  ghost function Added(id: Id, job: Job): History {
    History(map[id := job], {job.taskId}, {}, multiset{}, multiset{}, 0)
  }

  lemma FirstJobAdded(limit: int, id: Id, job: Job)
    requires Fits(id) && id != ZERO
    ensures var none := History(map[], {}, {}, multiset{}, multiset{}, 0);
      var empty := Redis(map[], ZERO, ZERO, {}, {}, [], []);
      && Next(limit, Alone(empty, Idle, none), Alone(empty, Admitted(job), none), 0, CheckAdmit(job))
      && Next(limit, Alone(empty, Admitted(job), none), Alone(Holds(id, job, ZERO, {}), Idle, Added(id, job)), 0,
        AddNew(id))
  {
    var none := History(map[], {}, {}, multiset{}, multiset{}, 0);
    assert map[0 := Idle][0 := Admitted(job)] == map[0 := Admitted(job)];
    assert map[0 := Admitted(job)][0 := Idle] == map[0 := Idle];
  }

  lemma FirstJobDone(limit: int, id: Id, job: Job)
    requires id != ZERO
    ensures var done := Added(id, job).(finished := {job.taskId});
      && Next(limit, Alone(Holds(id, job, ZERO, {}), Idle, Added(id, job)),
              Alone(Holds(id, job, id, {id}), Holding(id, job), Added(id, job)), 0, ReadGroup(id))
      && Next(limit, Alone(Holds(id, job, id, {id}), Holding(id, job), Added(id, job)),
              Alone(Holds(id, job, id, {}), Idle, done), 0, Finish)
  {
    assert map[0 := Idle][0 := Holding(id, job)] == map[0 := Holding(id, job)];
    assert map[0 := Holding(id, job)][0 := Idle] == map[0 := Idle];
  }

  lemma TrimStops(limit: int, id: Id, job: Job, past: History)
    requires id != ZERO && Successor(id) == None
    ensures var r := Holds(id, job, id, {});
      && Next(limit, Alone(r, Idle, past), Alone(r, TrimGot(id), past), 0, TrimInfo)
      && Next(limit, Alone(r, TrimGot(id), past), Alone(r, Idle, past), 0, TrimPending(ZERO))
  {
    assert map[0 := Idle][0 := TrimGot(id)] == map[0 := TrimGot(id)];
    assert map[0 := TrimGot(id)][0 := Idle] == map[0 := Idle];
  }

  lemma RunGoesOn(limit: int, ws: seq<World>, actors: seq<int>, actions: seq<Action>, w: World, c: int, a: Action)
    requires Run(limit, ws, actors, actions) && Next(limit, ws[|actions|], w, c, a)
    ensures Run(limit, ws + [w], actors + [c], actions + [a])
  {
    hide Next;
  }

  /**
   The condition fails at every ID without a successor, however Redis came by it: an entry is added,
   delivered and acknowledged, nothing is pending, and a full call of `TrimConsumed` leaves it there.
   */
  lemma PinnedTail(limit: int, id: Id, job: Job) returns (ws: seq<World>, actors: seq<int>, actions: seq<Action>)
    requires Fits(id) && Successor(id) == None
    ensures Run(limit, ws, actors, actions)
    ensures var n, w := |actions|, ws[|actions|];
      && n > 2 && actions[n - 2..] == [TrimInfo, TrimPending(ZERO)] && w.clients == map[0 := Idle]
      && w.redis.delivered == id && w.redis.pending == {} && id in w.redis.stream
  {
    var none := History(map[], {}, {}, multiset{}, multiset{}, 0);
    var empty := Redis(map[], ZERO, ZERO, {}, {}, [], []);
    var past := Added(id, job).(finished := {job.taskId});
    var r := Holds(id, job, id, {});
    FirstJobAdded(limit, id, job);
    FirstJobDone(limit, id, job);
    TrimStops(limit, id, job, past);
    ws, actors, actions := [Alone(empty, Idle, none)], [], [];
    assert Run(limit, ws, actors, actions);
    hide Run, Next;
    ws, actors, actions := RunOn(limit, ws, actors, actions, Alone(empty, Admitted(job), none), CheckAdmit(job));
    ws, actors, actions :=
      RunOn(limit, ws, actors, actions, Alone(Holds(id, job, ZERO, {}), Idle, Added(id, job)), AddNew(id));
    ws, actors, actions :=
      RunOn(limit, ws, actors, actions, Alone(Holds(id, job, id, {id}), Holding(id, job), Added(id, job)),
        ReadGroup(id));
    ws, actors, actions := RunOn(limit, ws, actors, actions, Alone(r, Idle, past), Finish);
    ws, actors, actions := RunOn(limit, ws, actors, actions, Alone(r, TrimGot(id), past), TrimInfo);
    ws, actors, actions := RunOn(limit, ws, actors, actions, Alone(r, Idle, past), TrimPending(ZERO));
  }

  lemma RunOn(limit: int, ws: seq<World>, actors: seq<int>, actions: seq<Action>, w: World, a: Action)
    returns (ws': seq<World>, actors': seq<int>, actions': seq<Action>)
    requires Run(limit, ws, actors, actions) && Next(limit, ws[|actions|], w, 0, a)
    ensures Run(limit, ws', actors', actions')
    ensures |ws'| == |actions'| + 1 && ws'[|actions'|] == w && actions' == actions + [a]
  {
    RunGoesOn(limit, ws, actors, actions, w, 0, a);
    ws', actors', actions' := ws + [w], actors + [0], actions + [a];
  }

  // ---------- No accepted task is lost ----------

  /** A message that is pending but whose job has already been stored again. */
  ghost predicate Superseded(w: World, id: Id) {
    exists c :: c in w.clients && (w.clients[c] == Acking(id) || (w.clients[c].RecoverAcking? && w.clients[c].id == id))
  }

  datatype Spot = InStream(id: Id) | InRetry(m: Member) | InDlq(i: nat) | InHands(c: int) | Finished

  /** Where a task can be found. */
  ghost predicate KeptAt(w: World, task: int, spot: Spot) {
    match spot
    case InStream(id) =>
      && id in w.redis.stream && w.redis.stream[id].taskId == task
      && (Below(w.redis.delivered, id) || (id in w.redis.pending && !Superseded(w, id)))
    case InRetry(m) => m in w.redis.retry && m.job.taskId == task
    case InDlq(i) => i < |w.redis.dlq| && w.redis.dlq[i].taskId == task
    case InHands(c) => c in w.clients && w.clients[c].InHand? && w.clients[c].member.job.taskId == task
    case Finished => task in w.past.finished
  }

  ghost predicate Kept(w: World, task: int) {
    exists spot :: KeptAt(w, task, spot)
  }

  ghost predicate AllKept(w: World) {
    forall task {:trigger Kept(w, task)} :: task in w.past.accepted ==> Kept(w, task)
  }

  /** Where a task that was at `spot` is after the step. */
  ghost function SpotAfter(w: World, c: int, a: Action, spot: Spot): Spot
    requires Enabled(w, c, a)
  {
    var pc := w.clients[c];
    match a
    case Finish => if spot == InStream(pc.id) then Finished else spot
    case NackRetry(dueAt, advance) => if spot == InStream(pc.id) then InRetry(Retried(pc, dueAt, advance)) else spot
    case NackDead => if spot == InStream(pc.id) then InDlq(|w.redis.dlq|) else spot
    case Remove => if spot == InRetry(pc.todo[0]) then InHands(c) else spot
    case Readd(id) => if spot == InHands(c) then InStream(id) else spot
    case RecoverAdd(id) => if spot == InStream(pc.claimed[0].0) then InStream(id) else spot
    case _ => spot
  }

  lemma SupersededBefore(limit: int, w: World, w': World, c: int, a: Action, id: Id)
    requires Next(limit, w, w', c, a) && Superseded(w', id) && !Superseded(w, id)
    ensures w'.clients[c] == Acking(id) || (w'.clients[c].RecoverAcking? && w'.clients[c].id == id)
  {
    var d :| d in w'.clients
      && (w'.clients[d] == Acking(id) || (w'.clients[d].RecoverAcking? && w'.clients[d].id == id));
    if d != c { assert Superseded(w, id); }
  }

  lemma SupersededDelivered(w: World, id: Id)
    requires Inv(w) && Superseded(w, id)
    ensures AtMost(id, w.redis.delivered)
  {
    var c :| c in w.clients && (w.clients[c] == Acking(id) || (w.clients[c].RecoverAcking? && w.clients[c].id == id));
    assert PcOk(w.redis, w.past, w.clients[c]);
  }

  lemma XAddElsewhere(r: Redis, h: History, x: Id, id: Id)
    requires StreamOk(r, h) && FreshId(r, x) && id in r.stream
    ensures x != id
  {
  }

  lemma NotBelowSafe(r: Redis, safe: Id, id: Id)
    requires Trimmable(r, safe) && (Below(r.delivered, id) || id in r.pending)
    ensures !Below(id, safe)
  {
  }

  /** Steps other than additions, deliveries and trims leave the stream, and acknowledge at most the client's entry. */
  lemma OthersLeave(w: World, c: int, a: Action)
    requires Enabled(w, c, a) && !a.Trim? && !a.AddNew? && !a.Readd? && !a.RecoverAdd? && !a.ReadGroup?
    ensures var r, r' := w.redis, RedisAfter(w, c, a);
      && r'.stream == r.stream && r'.delivered == r.delivered
      && (r'.pending == r.pending
          || ((a.Finish? || a.AckNow? || a.RecoverAck?) && r'.pending == r.pending - {w.clients[c].id}))
  {
  }

  lemma ReadKeeps(w: World, c: int, id: Id, x: Id)
    requires Enabled(w, c, ReadGroup(id)) && x in w.redis.stream
    requires Below(w.redis.delivered, x) || x in w.redis.pending
    ensures var r' := RedisAfter(w, c, ReadGroup(id));
      r'.stream == w.redis.stream && (Below(r'.delivered, x) || x in r'.pending)
  {
    assert Below(w.redis.delivered, x) ==> Undelivered(w.redis, x);
  }

  /** An entry that is undelivered or pending keeps its body, and stays so unless it is acknowledged. */
  lemma EntryStays(limit: int, w: World, w': World, c: int, a: Action, id: Id)
    requires Inv(w) && Next(limit, w, w', c, a) && id in w.redis.stream
    requires Below(w.redis.delivered, id) || id in w.redis.pending
    ensures id in w'.redis.stream && w'.redis.stream[id] == w.redis.stream[id]
    ensures Below(w'.redis.delivered, id) || id in w'.redis.pending
      || ((a.Finish? || a.AckNow? || a.RecoverAck?) && w.clients[c].id == id)
  {
    assert PcOk(w.redis, w.past, w.clients[c]);
    assert a.Trim? ==> Trimmable(w.redis, w.clients[c].safe);
    assert w'.redis == RedisAfter(w, c, a) && Enabled(w, c, a) && StreamOk(w.redis, w.past);
    if a.Trim? {
      hide Pcs, PcOk, PcAfter, PastAfter, StreamOk, Trimmable;
      NotBelowSafe(w.redis, w.clients[c].safe, id);
    } else if a.AddNew? || a.Readd? || a.RecoverAdd? {
      hide Pcs, PcOk, PcAfter, PastAfter, StreamOk, Trimmable;
      XAddElsewhere(w.redis, w.past, a.id, id);
    } else if a.ReadGroup? {
      hide *;
      ReadKeeps(w, c, a.id, id);
    } else {
      hide *;
      OthersLeave(w, c, a);
    }
  }

  /** The entry of a kept job is not acknowledged while the job's spot is the stream. */
  lemma NotAcked(limit: int, w: World, w': World, c: int, a: Action, task: int, id: Id)
    requires Inv(w) && Next(limit, w, w', c, a) && KeptAt(w, task, InStream(id))
    requires SpotAfter(w, c, a, InStream(id)) == InStream(id)
    ensures !((a.Finish? || a.AckNow? || a.RecoverAck?) && w.clients[c].id == id)
  {
    assert PcOk(w.redis, w.past, w.clients[c]);
    hide Pcs, AllSeen, Seen;
    if Superseded(w, id) { SupersededDelivered(w, id); }
    assert (a.AckNow? || a.RecoverAck?) && w.clients[c].id == id ==> Superseded(w, id);
  }

  /** Nobody is about to acknowledge the entry for having stored its job elsewhere. */
  lemma StillThere(limit: int, w: World, w': World, c: int, a: Action, task: int, id: Id)
    requires Inv(w) && Inv(w') && Next(limit, w, w', c, a) && KeptAt(w, task, InStream(id))
    requires SpotAfter(w, c, a, InStream(id)) == InStream(id)
    ensures Superseded(w', id) ==> Below(w'.redis.delivered, id)
  {
    assert PcOk(w.redis, w.past, w.clients[c]);
    assert PcOk(w'.redis, w'.past, w'.clients[c]);
    hide Pcs, AllSeen, Seen;
    if Superseded(w', id) {
      if Superseded(w, id) { SupersededDelivered(w, id); } else { SupersededBefore(limit, w, w', c, a, id); }
    }
  }

  /** An entry that stays in the stream stays findable there, unless its job is stored elsewhere in this step. */
  lemma StreamSpotStays(limit: int, w: World, w': World, c: int, a: Action, task: int, id: Id)
    requires Inv(w) && Inv(w') && Next(limit, w, w', c, a) && KeptAt(w, task, InStream(id))
    requires SpotAfter(w, c, a, InStream(id)) == InStream(id)
    ensures KeptAt(w', task, InStream(id))
  {
    EntryStays(limit, w, w', c, a, id);
    NotAcked(limit, w, w', c, a, task, id);
    StillThere(limit, w, w', c, a, task, id);
    hide Inv, Next, SpotAfter, Superseded;
  }

  /** A task leaves the stream for where the step put it. */
  lemma StreamSpotMoves(limit: int, w: World, w': World, c: int, a: Action, task: int, id: Id)
    requires Inv(w) && Next(limit, w, w', c, a) && KeptAt(w, task, InStream(id))
    requires SpotAfter(w, c, a, InStream(id)) != InStream(id)
    ensures KeptAt(w', task, SpotAfter(w, c, a, InStream(id)))
  {
    assert PcOk(w.redis, w.past, w.clients[c]);
    hide Pcs, Superseded;
  }

  lemma OtherSpotStays(limit: int, w: World, w': World, c: int, a: Action, task: int, spot: Spot)
    requires Inv(w) && Next(limit, w, w', c, a) && KeptAt(w, task, spot) && !spot.InStream?
    ensures KeptAt(w', task, SpotAfter(w, c, a, spot))
  {
    assert PcOk(w.redis, w.past, w.clients[c]);
    hide Pcs, Superseded;
  }

  lemma KeptStays(limit: int, w: World, w': World, c: int, a: Action, task: int, spot: Spot)
    requires Inv(w) && Inv(w') && Next(limit, w, w', c, a) && KeptAt(w, task, spot)
    ensures KeptAt(w', task, SpotAfter(w, c, a, spot))
  {
    if spot.InStream? {
      if SpotAfter(w, c, a, spot) == spot {
        StreamSpotStays(limit, w, w', c, a, task, spot.id);
      } else {
        StreamSpotMoves(limit, w, w', c, a, task, spot.id);
      }
    } else {
      OtherSpotStays(limit, w, w', c, a, task, spot);
    }
    hide Inv, KeptAt, SpotAfter;
  }

  lemma NewlyKept(limit: int, w: World, w': World, c: int, a: Action, task: int)
    requires Inv(w) && Next(limit, w, w', c, a) && task in w'.past.accepted && task !in w.past.accepted
    ensures Kept(w', task)
  {
    assert a.AddNew?;
    assert AtMost(w.redis.delivered, w.redis.lastId);
    assert KeptAt(w', task, InStream(a.id));
  }

  lemma AllKeptStays(limit: int, w: World, w': World, c: int, a: Action)
    requires Inv(w) && Inv(w') && AllKept(w) && Next(limit, w, w', c, a)
    ensures AllKept(w')
  {
    forall task | task in w'.past.accepted ensures Kept(w', task) {
      if task in w.past.accepted {
        assert Kept(w, task);
        var spot :| KeptAt(w, task, spot);
        KeptStays(limit, w, w', c, a, task, spot);
      } else {
        NewlyKept(limit, w, w', c, a, task);
      }
    }
  }

  /**
   At-least-once conservation: in every reachable state each accepted task is undelivered or pending
   with its body, or in the retry set, the dead letters or a promoter's hands, or it was finished.
   */
  lemma {:induction false} AcceptedIsKept(limit: int, ws: seq<World>, actors: seq<int>, actions: seq<Action>, i: nat)
    requires Run(limit, ws, actors, actions) && i < |ws|
    ensures AllKept(ws[i])
  {
    if i > 0 {
      AcceptedIsKept(limit, ws, actors, actions, i - 1);
      RunInv(limit, ws, actors, actions, i - 1);
      RunInv(limit, ws, actors, actions, i);
      assert Next(limit, ws[i - 1], ws[i - 1 + 1], actors[i - 1], actions[i - 1]);
      AllKeptStays(limit, ws[i - 1], ws[i], actors[i - 1], actions[i - 1]);
    }
  }

  // ---------- One member, one promotion ----------

  function IsHolding(m: Member): Pc -> bool {
    (pc: Pc) => pc.InHand? && pc.member == m
  }

  /** Each insertion of a member is still in the set, in one promoter's hands, or promoted. */
  ghost predicate Balanced(w: World) {
    forall m: Member {:trigger IsHolding(m)} ::
      w.past.inserted[m] == w.past.readded[m] + |Where(w.clients, IsHolding(m))| + if m in w.redis.retry then 1 else 0
  }

  lemma BalancedStays(limit: int, w: World, w': World, c: int, a: Action, m: Member)
    requires Next(limit, w, w', c, a)
    requires w.past.inserted[m] ==
      w.past.readded[m] + |Where(w.clients, IsHolding(m))| + if m in w.redis.retry then 1 else 0
    ensures w'.past.inserted[m] ==
      w'.past.readded[m] + |Where(w'.clients, IsHolding(m))| + if m in w'.redis.retry then 1 else 0
  {
    WhereChange(w.clients, c, w'.clients[c], IsHolding(m));
    hide Where;
  }

  /**
   However many promoters run at once, the promotions of a member never exceed its insertions, and
   while it is in the set or in a promoter's hands they are fewer.
   */
  lemma {:induction false} PromotedOnce(limit: int, ws: seq<World>, actors: seq<int>, actions: seq<Action>, i: nat)
    requires Run(limit, ws, actors, actions) && i < |ws|
    ensures Balanced(ws[i])
  {
    if i == 0 {
      assert forall c :: c in ws[0].clients ==> ws[0].clients[c] == Idle;
      forall m: Member { WhereNone(ws[0].clients, IsHolding(m)); }
    } else {
      PromotedOnce(limit, ws, actors, actions, i - 1);
      assert Next(limit, ws[i - 1], ws[i - 1 + 1], actors[i - 1], actions[i - 1]);
      forall m: Member
        ensures ws[i].past.inserted[m] ==
          ws[i].past.readded[m] + |Where(ws[i].clients, IsHolding(m))| + if m in ws[i].redis.retry then 1 else 0
      {
        BalancedStays(limit, ws[i - 1], ws[i], actors[i - 1], actions[i - 1], m);
      }
    }
  }

  // ---------- Admission ----------

  predicate IsAdmitted(pc: Pc) {
    pc.Admitted?
  }

  /** Entries, and entries about to be added, stay below the limit plus the number of clients. */
  ghost predicate Bounded(limit: int, w: World) {
    |w.redis.stream| + |Where(w.clients, IsAdmitted)| <= limit - 1 + |w.clients| + w.past.requeued
  }

  lemma TrimShrinks(r: Redis, safe: Id)
    ensures |XTrimMinId(r, safe).stream| <= |r.stream|
  {
    Subset(XTrimMinId(r, safe).stream.Keys, r.stream.Keys);
  }

  lemma BoundedStays(limit: int, w: World, w': World, c: int, a: Action)
    requires limit > 0 && Inv(w) && Bounded(limit, w) && Next(limit, w, w', c, a)
    ensures Bounded(limit, w')
  {
    WhereChange(w.clients, c, w'.clients[c], IsAdmitted);
    WhereAtMost(w'.clients, IsAdmitted);
    ClientsStay(limit, w, w', c, a);
    if a.Trim? { TrimShrinks(w.redis, w.clients[c].safe); }
    hide Inv, Where;
  }

  lemma BoundedAtStep(limit: int, ws: seq<World>, actors: seq<int>, actions: seq<Action>, i: nat)
    requires limit > 0 && Run(limit, ws, actors, actions) && i < |actions| && Bounded(limit, ws[i])
    ensures Bounded(limit, ws[i + 1]) && |ws[i + 1].clients| == |ws[i].clients|
  {
    RunInv(limit, ws, actors, actions, i);
    assert Next(limit, ws[i], ws[i + 1], actors[i], actions[i]);
    hide Next, Inv, Bounded;
    BoundedStays(limit, ws[i], ws[i + 1], actors[i], actions[i]);
    ClientsStay(limit, ws[i], ws[i + 1], actors[i], actions[i]);
  }

  /**
   With `k` clients and no requeues the stream never holds more than `limit - 1 + k` entries, in
   any interleaving of the length checks and the insertions; every requeue adds at most one.
   */
  lemma {:induction false} AdmissionBound(limit: int, ws: seq<World>, actors: seq<int>, actions: seq<Action>, i: nat)
    requires limit > 0 && Run(limit, ws, actors, actions) && i < |ws|
    ensures Bounded(limit, ws[i]) && |ws[i].clients| == |ws[0].clients|
    ensures |ws[i].redis.stream| <= limit - 1 + |ws[0].clients| + ws[i].past.requeued
  {
    hide Next, Where;
    if i == 0 {
      assert forall c :: c in ws[0].clients ==> ws[0].clients[c] == Idle;
      WhereNone(ws[0].clients, IsAdmitted);
    } else {
      AdmissionBound(limit, ws, actors, actions, i - 1);
      BoundedAtStep(limit, ws, actors, actions, i - 1);
    }
  }

  lemma ClientsStay(limit: int, w: World, w': World, c: int, a: Action)
    requires Next(limit, w, w', c, a)
    ensures |w'.clients| == |w.clients|
  {
    assert w'.clients.Keys == w.clients.Keys;
  }

  /** So with that much room MAXLEN never has an entry to trim. */
  lemma MaxLenNeverTrims(limit: int, maxLen: int, ws: seq<World>, actors: seq<int>, actions: seq<Action>, i: nat)
    requires limit > 0 && Run(limit, ws, actors, actions) && i < |ws|
    requires limit + |ws[0].clients| <= maxLen && ws[i].past.requeued == 0
    ensures |ws[i].redis.stream| < maxLen
  {
    AdmissionBound(limit, ws, actors, actions, i);
  }
}
