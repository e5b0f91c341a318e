/**
 The bounded span store (`internal/observability/tracing/store.go`): traces in order of creation,
 the oldest evicted first, and an index from tasks to traces.  The index never points to a wrong
 trace.  It finds every linked trace as long as no task is linked to a second retained trace, and
 `SharedTask` shows that it can fail to otherwise.
 */
module SpanStores {
  import opened Sorting
  import opened Spans

  datatype Record = Record(spans: seq<Span>, taskId: int, ownerId: int, truncated: bool)

  datatype Content = Content(traces: map<Key, Record>, order: seq<Key>, taskIndex: map<int, Key>)

  const BLANK := Record([], 0, 0, false)

  /** The listing of the traces, and an index that is right in all it says. */
  ghost predicate Consistent(c: Content, maxTraces: int) {
    && Distinct(c.order) && Elems(c.order) == c.traces.Keys && |c.order| <= maxTraces
    && forall t :: t in c.taskIndex ==> t != 0 && c.taskIndex[t] in c.traces && c.traces[c.taskIndex[t]].taskId == t
  }

  /** The index finds every linked trace. */
  ghost predicate Findable(c: Content) {
    forall id :: id in c.traces && c.traces[id].taskId != 0 ==>
      c.traces[id].taskId in c.taskIndex && c.taskIndex[c.traces[id].taskId] == id
  }

  /** No retained trace other than `id` is linked to the task. */
  ghost predicate Unclaimed(c: Content, id: Key, taskId: int) {
    forall x :: x in c.traces && x != id ==> c.traces[x].taskId != taskId
  }

  /** Without its oldest trace and what the index says about that trace's task. */
  ghost function Evicted(c: Content): Content {
    if c.order == [] || c.order[0] !in c.traces then c
    else
      var oldest := c.order[0];
      Content(c.traces - {oldest}, c.order[1..],
              if c.traces[oldest].taskId != 0 then c.taskIndex - {c.traces[oldest].taskId} else c.taskIndex)
  }

  /** `ensureLocked`: a new trace takes the place of the oldest one when the store is full. */
  ghost function Ensured(c: Content, maxTraces: int, id: Key): Content {
    if id in c.traces then c
    else
      var room := if |c.order| < maxTraces then c else Evicted(c);
      Content(room.traces[id := BLANK], room.order + [id], room.taskIndex)
  }

  /** `Link` on a store that holds the trace: the task is set anew, the owner only once. */
  ghost function Linked(c: Content, id: Key, taskId: int, ownerId: int): Content
    requires id in c.traces
  {
    var rec := c.traces[id];
    var index := if rec.taskId != 0 && rec.taskId != taskId then c.taskIndex - {rec.taskId} else c.taskIndex;
    Content(c.traces[id := rec.(taskId := if taskId != 0 then taskId else rec.taskId,
                                ownerId := if ownerId != 0 && rec.ownerId == 0 then ownerId else rec.ownerId)],
            c.order,
            if taskId != 0 then index[taskId := id] else c.taskIndex)
  }

  /** A trace and one more span: the newest is refused when the trace is full. */
  ghost function Received(rec: Record, span: Span, maxSpans: int): Record {
    if |rec.spans| >= maxSpans then rec.(truncated := true) else rec.(spans := rec.spans + [span])
  }

  /** What a trace holds stays, in order; a full trace takes nothing more and says so. */
  lemma ReceivedKeeps(rec: Record, span: Span, maxSpans: int)
    ensures var r := Received(rec, span, maxSpans);
      && rec.spans <= r.spans && r.taskId == rec.taskId && r.ownerId == rec.ownerId
      && (|rec.spans| < maxSpans ==> r.spans == rec.spans + [span] && r.truncated == rec.truncated)
      && (|rec.spans| >= maxSpans ==> r.spans == rec.spans && r.truncated)
  {
  }

  lemma OldestKnown(c: Content, maxTraces: int)
    requires Consistent(c, maxTraces) && c.order != []
    ensures c.order[0] in c.traces
  {
    assert c.order[0] in Elems(c.order);
  }

  lemma EvictedKeeps(c: Content, maxTraces: int)
    requires Consistent(c, maxTraces) && c.order != [] && c.order[0] in c.traces
    ensures Consistent(Evicted(c), maxTraces) && Evicted(c).traces == c.traces - {c.order[0]}
      && Evicted(c).order == c.order[1..]
    ensures var t := c.traces[c.order[0]].taskId;
      Evicted(c).taskIndex == if t != 0 then c.taskIndex - {t} else c.taskIndex
    ensures Findable(c) ==> Findable(Evicted(c))
  {
    ElemsHead(c.order);
  }

  lemma BlankKeeps(c: Content, maxTraces: int, id: Key)
    requires Consistent(c, maxTraces) && |c.order| < maxTraces && id !in c.traces
    ensures Consistent(Content(c.traces[id := BLANK], c.order + [id], c.taskIndex), maxTraces)
    ensures Findable(c) ==> Findable(Content(c.traces[id := BLANK], c.order + [id], c.taskIndex))
  {
    ElemsSnoc(c.order, id);
    hide Elems, Distinct;
  }

  lemma EnsuredKeeps(c: Content, maxTraces: int, id: Key)
    requires Consistent(c, maxTraces) && maxTraces > 0
    ensures Consistent(Ensured(c, maxTraces, id), maxTraces) && id in Ensured(c, maxTraces, id).traces
    ensures Findable(c) ==> Findable(Ensured(c, maxTraces, id))
  {
    if id !in c.traces {
      if |c.order| >= maxTraces {
        OldestKnown(c, maxTraces);
        EvictedKeeps(c, maxTraces);
      }
      hide Consistent, Findable, Evicted;
      BlankKeeps(if |c.order| < maxTraces then c else Evicted(c), maxTraces, id);
    }
  }

  lemma LinkedKeeps(c: Content, maxTraces: int, id: Key, taskId: int, ownerId: int)
    requires Consistent(c, maxTraces) && id in c.traces
    ensures Consistent(Linked(c, id, taskId, ownerId), maxTraces)
    ensures Findable(c) && (taskId == 0 || Unclaimed(c, id, taskId)) ==> Findable(Linked(c, id, taskId, ownerId))
  {
    hide Elems, Distinct;
  }

  /** In a store where every trace is found, a second claim to a task is exactly what makes one lost. */
  lemma LinkedFindableIff(c: Content, id: Key, taskId: int, ownerId: int)
    requires Findable(c) && id in c.traces && taskId != 0
    ensures Findable(Linked(c, id, taskId, ownerId)) <==> Unclaimed(c, id, taskId)
  {
    var after := Linked(c, id, taskId, ownerId);
    if !Unclaimed(c, id, taskId) {
      var x :| x in c.traces && x != id && c.traces[x].taskId == taskId;
      assert after.traces[x].taskId == taskId && after.taskIndex[taskId] == id;
    }
  }

  // ---------- What a call does to the traces ----------

  /** Only the oldest trace goes, only for a new one, and only when the store is full. */
  lemma EnsuredTraces(c: Content, maxTraces: int, id: Key, x: Key)
    requires Consistent(c, maxTraces) && maxTraces > 0
    ensures var after := Ensured(c, maxTraces, id).traces;
      && (x in after <==> x == id || (x in c.traces && !(id !in c.traces && |c.order| == maxTraces && x == c.order[0])))
      && (x in after ==> after[x] == if x in c.traces then c.traces[x] else BLANK)
  {
    if c.order != [] { OldestKnown(c, maxTraces); }
    hide Elems, Distinct;
  }

  /** The first caller that names an owner is the owner; the last that names a task has the trace. */
  lemma LinkedTraces(c: Content, maxTraces: int, id: Key, taskId: int, ownerId: int)
    requires Consistent(c, maxTraces) && maxTraces > 0
    ensures id in Ensured(c, maxTraces, id).traces
    ensures var before := if id in c.traces then c.traces[id] else BLANK;
      var after := Linked(Ensured(c, maxTraces, id), id, taskId, ownerId);
      && id in after.traces
      && after.traces[id].ownerId == (if before.ownerId != 0 then before.ownerId else ownerId)
      && after.traces[id].taskId == (if taskId != 0 then taskId else before.taskId)
      && after.traces[id].spans == before.spans && after.traces[id].truncated == before.truncated
      && (taskId != 0 ==> taskId in after.taskIndex && after.taskIndex[taskId] == id)
      && (forall t :: t != taskId ==> (t in after.taskIndex <==>
            t in Ensured(c, maxTraces, id).taskIndex && !(taskId != 0 && before.taskId != 0 && t == before.taskId)))
    ensures forall x :: x != id && x in Ensured(c, maxTraces, id).traces ==>
      x in Linked(Ensured(c, maxTraces, id), id, taskId, ownerId).traces
      && Linked(Ensured(c, maxTraces, id), id, taskId, ownerId).traces[x] == Ensured(c, maxTraces, id).traces[x]
  {
    EnsuredTraces(c, maxTraces, id, id);
    hide Ensured, Consistent;
  }

  datatype Call = LinkCall(id: Key, taskId: int, ownerId: int) | ExportCall(id: Key, span: Span)

  /** The content after a call of `Link` or `ExportSpan`. */
  ghost function Called(c: Content, maxTraces: int, maxSpans: int, call: Call): Content
    requires Consistent(c, maxTraces) && maxTraces > 0
    ensures Consistent(Called(c, maxTraces, maxSpans, call), maxTraces)
  {
    EnsuredKeeps(c, maxTraces, call.id);
    var room := Ensured(c, maxTraces, call.id);
    match call
    case LinkCall(id, taskId, ownerId) =>
      LinkedKeeps(room, maxTraces, id, taskId, ownerId);
      if id == "" then c else Linked(room, id, taskId, ownerId)
    case ExportCall(id, span) =>
      if id == "" then c else room.(traces := room.traces[id := Received(room.traces[id], span, maxSpans)])
  }

  lemma OwnerStaysOnce(c: Content, maxTraces: int, maxSpans: int, call: Call, x: Key)
    requires Consistent(c, maxTraces) && maxTraces > 0 && x in c.traces && c.traces[x].ownerId != 0
    ensures var after := Called(c, maxTraces, maxSpans, call).traces;
      x in after ==> after[x].ownerId == c.traces[x].ownerId
  {
    EnsuredTraces(c, maxTraces, call.id, x);
    hide Ensured, Consistent;
  }

  ghost function AfterCalls(c: Content, maxTraces: int, maxSpans: int, calls: seq<Call>): Content
    requires Consistent(c, maxTraces) && maxTraces > 0
    ensures Consistent(AfterCalls(c, maxTraces, maxSpans, calls), maxTraces)
  {
    if calls == [] then c
    else Called(AfterCalls(c, maxTraces, maxSpans, calls[..|calls| - 1]), maxTraces, maxSpans, calls[|calls| - 1])
  }

  /** Over any calls, as long as a trace is retained, its owner never changes: nobody takes over a trace. */
  lemma {:induction false} OwnerStays(c: Content, maxTraces: int, maxSpans: int, calls: seq<Call>, x: Key)
    requires Consistent(c, maxTraces) && maxTraces > 0 && x in c.traces && c.traces[x].ownerId != 0
    requires forall n :: 0 <= n <= |calls| ==> x in AfterCalls(c, maxTraces, maxSpans, calls[..n]).traces
    ensures x in AfterCalls(c, maxTraces, maxSpans, calls).traces
    ensures AfterCalls(c, maxTraces, maxSpans, calls).traces[x].ownerId == c.traces[x].ownerId
  {
    assert calls[..|calls|] == calls;
    if calls != [] {
      var init := calls[..|calls| - 1];
      assert forall n :: 0 <= n <= |init| ==> init[..n] == calls[..n];
      OwnerStays(c, maxTraces, maxSpans, init, x);
      OwnerStaysOnce(AfterCalls(c, maxTraces, maxSpans, init), maxTraces, maxSpans, calls[|calls| - 1], x);
    }
  }

  class SpanStore {
    var traces: map<Key, Record>
    var order: seq<Key>
    var taskTraceIdx: map<int, Key>
    const maxTraces: int
    const maxSpans: int
    var exported: int
    var rejected: int
    var evicted: int

    ghost function Contents(): Content
      reads this
    {
      Content(traces, order, taskTraceIdx)
    }

    ghost predicate Valid()
      reads this
    {
      && maxTraces > 0 && maxSpans > 0 && Consistent(Contents(), maxTraces)
      && (forall id :: id in traces ==> |traces[id].spans| <= maxSpans)
    }

    constructor (maxTraces: int, maxSpans: int)
      ensures Valid() && Contents() == Content(map[], [], map[])
      ensures this.maxTraces == (if maxTraces <= 0 then 256 else maxTraces)
        && this.maxSpans == if maxSpans <= 0 then 200 else maxSpans
    {
      this.maxTraces := if maxTraces <= 0 then 256 else maxTraces;
      this.maxSpans := if maxSpans <= 0 then 200 else maxSpans;
      traces, order, taskTraceIdx := map[], [], map[];
      exported, rejected, evicted := 0, 0, 0;
    }

    method EvictOldest()
      requires Valid() && order != []
      modifies `traces, `order, `taskTraceIdx, `evicted
      ensures old(order[0] in traces) && Contents() == Evicted(old(Contents()))
      ensures Valid() && evicted == old(evicted) + 1
    {
      OldestKnown(Contents(), maxTraces);
      EvictedKeeps(Contents(), maxTraces);
      hide Consistent;
      var oldest := order[0];
      order := order[1..];
      if traces[oldest].taskId != 0 {
        taskTraceIdx := taskTraceIdx - {traces[oldest].taskId};
      }
      traces := traces - {oldest};
      evicted := evicted + 1;
    }

    method EnsureTrace(id: Key)
      requires Valid()
      modifies `traces, `order, `taskTraceIdx, `evicted
      ensures Valid() && Contents() == Ensured(old(Contents()), maxTraces, id)
    {
      EnsuredKeeps(Contents(), maxTraces, id);
      if |order| > 0 { OldestKnown(Contents(), maxTraces); }
      hide Consistent, Findable;
      if id in traces {
        return;
      }
      ghost var start := Contents();
      while |order| >= maxTraces
        invariant Valid() && id !in traces
        invariant Contents() == start || (Contents() == Evicted(start) && |order| < maxTraces <= |start.order|)
        decreases |order|
      {
        EvictOldest();
      }
      traces := traces[id := BLANK];
      order := order + [id];
    }

    method Link(id: Key, taskId: int, ownerId: int)
      requires Valid()
      modifies `traces, `order, `taskTraceIdx, `evicted
      ensures Valid()
      ensures id == "" ==> Contents() == old(Contents())
      ensures id != "" ==>
        && id in Ensured(old(Contents()), maxTraces, id).traces
        && Contents() == Linked(Ensured(old(Contents()), maxTraces, id), id, taskId, ownerId)
    {
      if id == "" {
        return;
      }
      EnsuredKeeps(Contents(), maxTraces, id);
      EnsureTrace(id);
      LinkedKeeps(Contents(), maxTraces, id, taskId, ownerId);
      hide Consistent, Ensured;
      var rec := traces[id];
      if taskId != 0 {
        if rec.taskId != 0 && rec.taskId != taskId {
          taskTraceIdx := taskTraceIdx - {rec.taskId};
        }
        rec := rec.(taskId := taskId);
        taskTraceIdx := taskTraceIdx[taskId := id];
      }
      if ownerId != 0 && rec.ownerId == 0 {
        rec := rec.(ownerId := ownerId);
      }
      traces := traces[id := rec];
    }

    method AddSpan(id: Key, span: Span)
      requires Valid() && id in traces
      modifies `traces, `exported, `rejected
      ensures Valid()
      ensures Contents() ==
        old(Contents()).(traces := old(traces)[id := Received(old(traces)[id], span, maxSpans)])
      ensures exported + rejected == old(exported + rejected) + 1
      ensures rejected == old(rejected) + if |old(traces)[id].spans| >= maxSpans then 1 else 0
    {
      var rec := traces[id];
      if |rec.spans| >= maxSpans {
        traces := traces[id := rec.(truncated := true)];
        rejected := rejected + 1;
      } else {
        traces := traces[id := rec.(spans := rec.spans + [span])];
        exported := exported + 1;
      }
    }

    method ExportSpan(id: Key, span: Span)
      requires Valid()
      modifies this
      ensures Valid()
      ensures id == "" ==> Contents() == old(Contents()) && exported == old(exported) && rejected == old(rejected)
      ensures id != "" ==>
        var c := Ensured(old(Contents()), maxTraces, id);
        && id in c.traces && Contents() == c.(traces := c.traces[id := Received(c.traces[id], span, maxSpans)])
        && exported + rejected == old(exported + rejected) + 1
        && rejected == old(rejected) + if |c.traces[id].spans| >= maxSpans then 1 else 0
    {
      if id == "" {
        return;
      }
      EnsuredKeeps(Contents(), maxTraces, id);
      EnsureTrace(id);
      hide Ensured, Received;
      AddSpan(id, span);
    }

    method TraceForTask(taskId: int) returns (id: Key, ok: bool)
      requires Valid()
      ensures ok ==> id in traces && traces[id].taskId == taskId
      ensures Findable(Contents()) && taskId != 0 && (exists x :: x in traces && traces[x].taskId == taskId) ==> ok
    {
      if taskId == 0 || taskId !in taskTraceIdx {
        return "", false;
      }
      return taskTraceIdx[taskId], true;
    }
  }

  /** Two traces of one task: once the first moves on, the second is still linked but no longer found. */
  method SharedTask() returns (s: SpanStore)
    ensures fresh(s) && s.Valid()
    ensures "b" in s.traces && s.traces["b"].taskId == 1 && 1 !in s.taskTraceIdx
  {
    s := new SpanStore(0, 0);
    hide Consistent;
    s.Link("a", 1, 0);
    s.Link("b", 1, 0);
    s.Link("a", 2, 0);
  }
}
