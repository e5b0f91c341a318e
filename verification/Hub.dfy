/**
 The event hub (`internal/task/hub.go`): replay buffers for the most recently active tasks, and
 subscriptions with a limit for each user and in all.  Each method is a critical section of the
 hub's mutex, but for `SendBacklog`, which comes after one and meets the events of other publishers.
 */
module Hub {
  import opened Sorting
  import opened Counting
  import opened Wrappers

  datatype Event = Event(taskId: int, token: bool, text: string)

  const REPLAY_CAP: nat := 64

  /** The last `n` elements. */
  ghost function LastOf<T>(s: seq<T>, n: nat): seq<T> {
    if |s| <= n then s else s[|s| - n..]
  }

  /** An end of the list: all of it if it is short, and `n` elements otherwise. */
  lemma LastOfEnds<T>(s: seq<T>, n: nat)
    ensures |LastOf(s, n)| == (if |s| < n then |s| else n) && s == s[..|s| - |LastOf(s, n)|] + LastOf(s, n)
  {
  }

  lemma LastOfLast<T>(s: seq<T>, x: T, n: nat)
    ensures LastOf(LastOf(s, n) + [x], n) == LastOf(s + [x], n)
  {
  }

  // ---------- One buffer, shifted in place ----------

  /** A Go slice: the first `len` elements of an array that grows when it is full. */
  class ReplayBuffer {
    var data: array<Event>
    var len: nat

    ghost predicate Valid()
      reads this
    {
      len <= data.Length
    }

    ghost function Contents(): seq<Event>
      requires Valid()
      reads this, data
    {
      data[..len]
    }

    constructor ()
      ensures Valid() && Contents() == [] && fresh(data)
    {
      data := new Event[0];
      len := 0;
    }

    /** `append(buf, ev)`: a new array only when the old one is full. */
    method Grow(ev: Event)
      requires Valid()
      modifies this, data
      ensures Valid() && Contents() == old(Contents()) + [ev]
      ensures data == old(data) || fresh(data)
    {
      if len == data.Length {
        var bigger := new Event[2 * len + 1](_ => ev);
        for i := 0 to len
          invariant fresh(bigger) && data == old(data) && len == old(len) && bigger.Length == 2 * len + 1
          invariant data[..] == old(data[..])
          invariant bigger[..i] == data[..i]
        {
          bigger[i] := data[i];
        }
        data := bigger;
      }
      data[len] := ev;
      len := len + 1;
    }

    /** Moves the last 64 elements to the front of the same array. */
    method Shift()
      requires Valid() && len > REPLAY_CAP
      modifies this, data
      ensures Valid() && data == old(data) && Contents() == LastOf(old(Contents()), REPLAY_CAP)
    {
      var from := len - REPLAY_CAP;
      for i := 0 to REPLAY_CAP
        invariant data == old(data) && len == old(len)
        invariant forall k :: 0 <= k < i ==> data[k] == old(data[from + k])
        invariant forall k :: i <= k < data.Length ==> data[k] == old(data[k])
      {
        data[i] := data[from + i];
      }
      len := REPLAY_CAP;
    }

    method Append(ev: Event)
      requires Valid()
      modifies this, data
      ensures Valid() && Contents() == LastOf(old(Contents()) + [ev], REPLAY_CAP)
      ensures data == old(data) || fresh(data)
    {
      Grow(ev);
      if len > REPLAY_CAP {
        Shift();
      }
    }

    /** `append([]Event(nil), buf...)`. */
    method Backlog() returns (copy: array<Event>)
      requires Valid()
      ensures fresh(copy) && copy[..] == Contents()
    {
      copy := new Event[len](i requires 0 <= i < len && Valid() reads this, data => data[i]);
    }
  }

  // ---------- What the buffers should hold ----------

  datatype Entry = Published(ev: Event) | Removed(taskId: int)

  ghost function SinceStep(before: seq<Event>, e: Entry, t: int): seq<Event> {
    match e
    case Published(ev) => if ev.taskId == t then before + [ev] else before
    case Removed(u) => if u == t then [] else before
  }

  ghost function LastStep(before: nat, e: Entry, t: int, now: nat): nat {
    match e
    case Published(ev) => if ev.taskId == t then now else before
    case Removed(u) => if u == t then 0 else before
  }

  /** The events of task `t` since it was last removed. */
  ghost function Since(log: seq<Entry>, t: int): seq<Event> {
    if log == [] then [] else SinceStep(Since(log[..|log| - 1], t), log[|log| - 1], t)
  }

  /** When task `t` last published, counted from 1; 0 if not since it was last removed. */
  ghost function LastAt(log: seq<Entry>, t: int): nat {
    if log == [] then 0 else LastStep(LastAt(log[..|log| - 1], t), log[|log| - 1], t, |log|)
  }

  lemma OneMore(log: seq<Entry>, e: Entry, t: int)
    ensures Since(log + [e], t) == SinceStep(Since(log, t), e, t)
    ensures LastAt(log + [e], t) == LastStep(LastAt(log, t), e, t, |log| + 1)
  {
    assert (log + [e])[..|log|] == log;
  }

  lemma {:induction false} LastAtBound(log: seq<Entry>, t: int)
    ensures LastAt(log, t) <= |log|
    ensures Since(log, t) != [] <==> LastAt(log, t) > 0
  {
    if log != [] { LastAtBound(log[..|log| - 1], t); }
  }

  /** Least recently published first. */
  ghost predicate Ordered(log: seq<Entry>, lru: seq<int>) {
    forall i, j :: 0 <= i < j < |lru| ==> LastAt(log, lru[i]) < LastAt(log, lru[j])
  }

  /** The buffers are the last events of exactly the tasks that have some. */
  ghost predicate Suffixes(log: seq<Entry>, view: map<int, seq<Event>>) {
    && (forall t :: t in view <==> Since(log, t) != [])
    && (forall t :: t in view ==> view[t] == LastOf(Since(log, t), REPLAY_CAP))
  }

  /** The retained buffers and their order agree with the log. */
  ghost predicate Tracks(log: seq<Entry>, view: map<int, seq<Event>>, lru: seq<int>) {
    && Distinct(lru) && Elems(lru) == view.Keys
    && Suffixes(log, view)
    && Ordered(log, lru)
  }

  /** The list without `t`, in the same order. */
  function Without(lru: seq<int>, t: int): (r: seq<int>) {
    if lru == [] then [] else Without(lru[..|lru| - 1], t) + if lru[|lru| - 1] == t then [] else [lru[|lru| - 1]]
  }

  lemma {:induction false} WithoutElems(lru: seq<int>, t: int)
    requires Distinct(lru)
    ensures Distinct(Without(lru, t)) && Elems(Without(lru, t)) == Elems(lru) - {t}
  {
    if lru != [] {
      var init, last := lru[..|lru| - 1], lru[|lru| - 1];
      WithoutElems(init, t);
      assert lru == init + [last];
      assert last !in Elems(init);
      ElemsSnoc(init, last);
      ElemsSnoc(Without(init, t), last);
    }
  }

  lemma {:induction false} WithoutOrdered(log: seq<Entry>, lru: seq<int>, t: int)
    requires Distinct(lru) && Ordered(log, lru)
    ensures Ordered(log, Without(lru, t))
  {
    hide LastAt;
    if lru != [] {
      var init, last := lru[..|lru| - 1], lru[|lru| - 1];
      WithoutOrdered(log, init, t);
      WithoutElems(init, t);
      var r := Without(init, t);
      forall i | 0 <= i < |r| ensures LastAt(log, r[i]) < LastAt(log, last) {
        assert r[i] in Elems(r);
        var k :| 0 <= k < |init| && init[k] == r[i];
        assert lru[k] == r[i];
      }
    }
  }

  lemma PublishOrder(log: seq<Entry>, rest: seq<int>, ev: Event)
    requires ev.taskId !in Elems(rest) && Ordered(log, rest)
    ensures Ordered(log + [Published(ev)], rest + [ev.taskId])
  {
    forall k | 0 <= k < |rest|
      ensures LastAt(log + [Published(ev)], rest[k]) == LastAt(log, rest[k]) <= |log|
    {
      assert rest[k] in Elems(rest);
      OneMore(log, Published(ev), rest[k]);
      LastAtBound(log, rest[k]);
    }
    OneMore(log, Published(ev), ev.taskId);
  }

  ghost function Buffered(view: map<int, seq<Event>>, t: int): seq<Event> {
    if t in view then view[t] else []
  }

  /** Publishing moves the task to the back and adds the event to its suffix. */
  lemma PublishSuffixes(log: seq<Entry>, view: map<int, seq<Event>>, ev: Event)
    requires Suffixes(log, view)
    ensures Suffixes(log + [Published(ev)],
                     view[ev.taskId := LastOf(Buffered(view, ev.taskId) + [ev], REPLAY_CAP)])
  {
    var t := ev.taskId;
    forall u ensures Since(log + [Published(ev)], u) == if u == t then Since(log, t) + [ev] else Since(log, u) {
      OneMore(log, Published(ev), u);
    }
    LastOfLast(Since(log, t), ev, REPLAY_CAP);
    assert LastOf(Buffered(view, t) + [ev], REPLAY_CAP) == LastOf(Since(log, t) + [ev], REPLAY_CAP);
    hide Since, LastOf, Buffered;
  }

  lemma PublishTracks(log: seq<Entry>, view: map<int, seq<Event>>, lru: seq<int>, ev: Event)
    requires Tracks(log, view, lru)
    ensures Tracks(log + [Published(ev)], view[ev.taskId := LastOf(Buffered(view, ev.taskId) + [ev], REPLAY_CAP)],
                   Without(lru, ev.taskId) + [ev.taskId])
  {
    var t := ev.taskId;
    WithoutElems(lru, t);
    WithoutOrdered(log, lru, t);
    ElemsSnoc(Without(lru, t), t);
    DistinctSnoc(Without(lru, t), t);
    PublishOrder(log, Without(lru, t), ev);
    PublishSuffixes(log, view, ev);
    hide Without, LastOf, Since, Ordered, Distinct, Elems, Suffixes;
  }

  lemma DistinctSnoc(s: seq<int>, x: int)
    requires Distinct(s) && x !in Elems(s)
    ensures Distinct(s + [x])
  {
    forall i | 0 <= i < |s| ensures s[i] != x { assert s[i] in Elems(s); }
  }

  lemma RemoveOrder(log: seq<Entry>, rest: seq<int>, t: int)
    requires t !in Elems(rest) && Ordered(log, rest)
    ensures Ordered(log + [Removed(t)], rest)
  {
    forall k | 0 <= k < |rest| ensures LastAt(log + [Removed(t)], rest[k]) == LastAt(log, rest[k]) {
      assert rest[k] in Elems(rest);
      OneMore(log, Removed(t), rest[k]);
    }
  }

  /** Removing a task forgets its events. */
  lemma RemoveTracks(log: seq<Entry>, view: map<int, seq<Event>>, lru: seq<int>, t: int)
    requires Tracks(log, view, lru)
    ensures Tracks(log + [Removed(t)], view - {t}, Without(lru, t))
  {
    WithoutElems(lru, t);
    WithoutOrdered(log, lru, t);
    RemoveOrder(log, Without(lru, t), t);
    forall u ensures Since(log + [Removed(t)], u) == (if u == t then [] else Since(log, u)) {
      OneMore(log, Removed(t), u);
    }
    hide Without, LastOf, Since, Ordered;
  }

  lemma TracksKeys(log: seq<Entry>, view: map<int, seq<Event>>, lru: seq<int>)
    requires Tracks(log, view, lru)
    ensures Elems(lru) == view.Keys && Distinct(lru)
    ensures |view.Keys| > 0 ==> lru != [] && lru[0] in view
  {
    assert lru == [] ==> Elems(lru) == {};
    assert lru != [] ==> lru[0] in Elems(lru);
  }

  lemma {:induction false} WithoutAbsent(lru: seq<int>, t: int)
    requires t !in Elems(lru)
    ensures Without(lru, t) == lru
  {
    if lru != [] {
      assert lru[|lru| - 1] in Elems(lru);
      forall x | x in lru[..|lru| - 1] ensures x in Elems(lru) {}
      WithoutAbsent(lru[..|lru| - 1], t);
      assert lru == lru[..|lru| - 1] + [lru[|lru| - 1]];
    }
  }

  lemma {:induction false} WithoutHead(lru: seq<int>)
    requires lru != [] && Distinct(lru)
    ensures Without(lru, lru[0]) == lru[1..]
  {
    if |lru| > 1 {
      WithoutHead(lru[..|lru| - 1]);
      assert lru[1..] == lru[..|lru| - 1][1..] + [lru[|lru| - 1]];
    } else {
      assert lru[..|lru| - 1] == [] && lru[1..] == [];
    }
  }

  /** What evicting the first task of the list records. */
  ghost function Oldest(lru: seq<int>): seq<Entry> {
    if lru == [] then [] else [Removed(lru[0])]
  }

  /** What publishing an event records: tokens nothing, a task without a buffer perhaps an eviction. */
  ghost function AppendEntries(ev: Event, retained: set<int>, lru: seq<int>, maxReplay: int): seq<Entry> {
    if ev.token then []
    else (if ev.taskId in retained || |retained| < maxReplay then [] else Oldest(lru)) + [Published(ev)]
  }

  /** The head of the list has been silent the longest. */
  lemma HeadIsOldest(log: seq<Entry>, view: map<int, seq<Event>>, lru: seq<int>, t: int)
    requires Tracks(log, view, lru) && t in view
    ensures lru != [] && lru[0] in view && LastAt(log, lru[0]) <= LastAt(log, t)
  {
    assert t in Elems(lru);
    var i :| 0 <= i < |lru| && lru[i] == t;
    assert lru[0] in Elems(lru);
    hide LastAt, Suffixes;
  }

  /**
   A token leaves no trace.  Any other event is recorded, after the removal of the task that has been silent
   the longest if the event's task is new and the table full.
   */
  lemma AppendRecords(log: seq<Entry>, view: map<int, seq<Event>>, lru: seq<int>, ev: Event, maxReplay: int)
    requires Tracks(log, view, lru) && maxReplay > 0
    ensures var entries := AppendEntries(ev, view.Keys, lru, maxReplay);
      && (ev.token ==> entries == [])
      && (!ev.token && (ev.taskId in view || |view.Keys| < maxReplay) ==> entries == [Published(ev)])
      && (!ev.token && ev.taskId !in view && |view.Keys| >= maxReplay ==> exists t ::
            && t in view && (forall u :: u in view ==> LastAt(log, t) <= LastAt(log, u))
            && entries == [Removed(t), Published(ev)])
  {
    if |view.Keys| > 0 {
      TracksKeys(log, view, lru);
      forall u | u in view { HeadIsOldest(log, view, lru, u); }
    }
    hide Tracks, LastAt;
  }

  // ---------- The buffers of all tasks ----------

  class Replay {
    var replay: map<int, ReplayBuffer>
    var replayLru: seq<int>          // least recently published first
    var replayIdx: set<int>          // the tasks that have a list element
    var maxReplay: int
    ghost var log: seq<Entry>
    ghost var view: map<int, seq<Event>>   // what the buffers hold
    ghost var owner: map<object, int>      // which task each buffer and each array belongs to

    /** The buffer of `t` and its array belong to `t` alone and hold what they should. */
    ghost predicate BufferOk(t: int)
      reads `replay, `view, `owner, owner.Keys
    {
      && t in replay && t in view
      && replay[t] in owner && owner[replay[t]] == t && replay[t].data in owner && owner[replay[t].data] == t
      && replay[t].Valid() && replay[t].Contents() == view[t]
    }

    /** The buffers are this object's own, and no two share anything. */
    ghost predicate Owned()
      reads `replay, `view, `owner, owner.Keys
    {
      && this !in owner
      && view.Keys == replay.Keys
      && (forall t {:trigger BufferOk(t)} :: t in replay ==> BufferOk(t))
    }

    ghost predicate Valid()
      reads this, owner.Keys
    {
      && Owned()
      && Tracks(log, view, replayLru) && replayIdx == replay.Keys
      && 0 < maxReplay && |replay.Keys| <= maxReplay
    }

    constructor ()
      ensures Valid() && log == [] && owner == map[] && maxReplay == 1024
    {
      replay, replayLru, replayIdx, maxReplay, log, view, owner := map[], [], {}, 1024, [], map[], map[];
    }

    /** The buffer of a task; a new one is not yet in the map. */
    method BufferOf(t: int) returns (buf: ReplayBuffer)
      requires Owned()
      ensures Owned() && buf.Valid() && buf.Contents() == Buffered(view, t)
      ensures if t in replay then buf == replay[t] else fresh(buf) && fresh(buf.data)
    {
      if t in replay {
        assert BufferOk(t);
        buf := replay[t];
      } else {
        buf := new ReplayBuffer();
        forall u | u in replay ensures BufferOk(u) { assert old(BufferOk(u)); }
      }
    }

    /** Everything but the buffer of `t` is in order, and `buf` can take its place. */
    ghost predicate OthersOwned(t: int, buf: ReplayBuffer)
      reads `replay, `view, `owner, owner.Keys, buf
    {
      && this !in owner
      && view.Keys == replay.Keys
      && (forall u {:trigger BufferOk(u)} :: u in replay && u != t ==> BufferOk(u))
      && (buf in owner ==> owner[buf] == t) && (buf.data in owner ==> owner[buf.data] == t)
    }

    method AppendTo(t: int, buf: ReplayBuffer, ev: Event)
      requires Owned() && buf.Valid() && OthersOwned(t, buf)
      modifies buf, buf.data
      ensures buf.Valid() && buf.Contents() == LastOf(old(buf.Contents()) + [ev], REPLAY_CAP)
      ensures OthersOwned(t, buf) && (buf.data == old(buf.data) || fresh(buf.data))
    {
      hide LastOf, ReplayBuffer.Contents, ReplayBuffer.Valid;
      buf.Append(ev);
      forall u | u in replay && u != t ensures BufferOk(u) { assert old(BufferOk(u)); }
    }

    ghost method Adopt(t: int, buf: ReplayBuffer)
      requires OthersOwned(t, buf) && buf.Valid()
      modifies `owner
      ensures OthersOwned(t, buf) && buf in owner && buf.data in owner
        && owner.Keys == old(owner.Keys) + {buf, buf.data}
    {
      hide ReplayBuffer.Contents, ReplayBuffer.Valid;
      owner := owner[buf as object := t];
      owner := owner[buf.data as object := t];
      forall u | u in replay && u != t ensures BufferOk(u) { assert old(BufferOk(u)); }
    }

    method Install(ev: Event, buf: ReplayBuffer, lru: seq<int>)
      requires OthersOwned(ev.taskId, buf) && buf.Valid() && buf in owner && buf.data in owner
      modifies `replay, `view, `replayLru, `replayIdx, `log
      ensures Owned() && replay.Keys == old(replay).Keys + {ev.taskId}
      ensures view == old(view)[ev.taskId := buf.Contents()]
      ensures replayLru == lru && replayIdx == old(replayIdx) + {ev.taskId} && log == old(log) + [Published(ev)]
    {
      hide ReplayBuffer.Contents, ReplayBuffer.Valid;
      var t := ev.taskId;
      replay := replay[t := buf];
      view := view[t := buf.Contents()];
      replayLru := lru;
      replayIdx := replayIdx + {t};
      log := log + [Published(ev)];
      forall u | u in replay ensures BufferOk(u) {
        if u != t { assert old(BufferOk(u)); }
      }
    }

    /** Appends to the buffer of the event's task and moves the task to the back of the list. */
    method Put(ev: Event, lru: seq<int>)
      requires Owned()
      modifies this, owner.Keys
      ensures Owned() && fresh(owner.Keys - old(owner.Keys)) && maxReplay == old(maxReplay)
      ensures replay.Keys == old(replay).Keys + {ev.taskId}
      ensures view == old(view)[ev.taskId := LastOf(Buffered(old(view), ev.taskId) + [ev], REPLAY_CAP)]
      ensures replayLru == lru && replayIdx == old(replayIdx) + {ev.taskId} && log == old(log) + [Published(ev)]
    {
      hide LastOf, Buffered, ReplayBuffer.Contents, ReplayBuffer.Valid;
      if ev.taskId in replay { assert BufferOk(ev.taskId); }
      var buf := BufferOf(ev.taskId);
      AppendTo(ev.taskId, buf, ev);
      Adopt(ev.taskId, buf);
      Install(ev, buf, lru);
    }

    /** Deletes the buffer, the index entry and the list element of a task. */
    method Forget(t: int, lru: seq<int>)
      requires Owned()
      modifies `replay, `replayLru, `replayIdx, `log, `view
      ensures Owned() && replay.Keys == old(replay.Keys) - {t} && view == old(view) - {t}
      ensures replayLru == lru && replayIdx == old(replayIdx) - {t} && log == old(log) + [Removed(t)]
    {
      hide ReplayBuffer.Contents, ReplayBuffer.Valid;
      replayLru := lru;
      replayIdx := replayIdx - {t};
      replay := replay - {t};
      view := view - {t};
      log := log + [Removed(t)];
      forall u | u in replay ensures BufferOk(u) { assert old(BufferOk(u)); }
    }

    /** Forgets the first task of the list. */
    method DropOldest()
      requires Owned() && Tracks(log, view, replayLru) && replayIdx == replay.Keys && |replay.Keys| > 0
      modifies `replay, `replayLru, `replayIdx, `log, `view
      ensures Owned() && Tracks(log, view, replayLru) && replayIdx == replay.Keys
      ensures |replay.Keys| == old(|replay.Keys|) - 1 && replay.Keys <= old(replay).Keys
      ensures log == old(log) + Oldest(old(replayLru))
    {
      TracksKeys(log, view, replayLru);
      assert view.Keys == replay.Keys;
      hide Owned, Tracks, Without, Distinct, Elems, ReplayBuffer.Contents, ReplayBuffer.Valid;
      var oldest := replayLru[0];
      assert |replay.Keys - {oldest}| == |replay.Keys| - 1;
      RemoveTracks(log, view, replayLru, oldest);
      WithoutHead(replayLru);
      Forget(oldest, replayLru[1..]);
    }

    lemma SomeListed()
      requires Valid()
      ensures |replay.Keys| > 0 ==> |replayLru| > 0
    {
      assert view.Keys == replay.Keys;
      TracksKeys(log, view, replayLru);
    }

    /** Makes room for one more task by dropping those that have been silent the longest. */
    method EvictReplay()
      requires Valid()
      modifies `replay, `replayLru, `replayIdx, `log, `view
      ensures Valid() && |replay.Keys| < maxReplay && replay.Keys <= old(replay).Keys
      ensures log == old(log) + if old(|replay.Keys|) < maxReplay then [] else Oldest(old(replayLru))
    {
      hide Owned, Tracks, Oldest, Elems, Distinct;
      while |replay.Keys| >= maxReplay && |replayLru| > 0
        invariant Valid() && replay.Keys <= old(replay).Keys
        invariant log == old(log) + if |replay.Keys| == old(|replay.Keys|) then [] else Oldest(old(replayLru))
        invariant |replay.Keys| == old(|replay.Keys|) || |replay.Keys| + 1 == old(|replay.Keys|) == maxReplay
        invariant |replay.Keys| == old(|replay.Keys|) ==> replayLru == old(replayLru)
        decreases |replay.Keys|
      {
        DropOldest();
      }
      SomeListed();
    }

    /** `appendReplay`. */
    method AppendReplay(ev: Event)
      requires Valid()
      modifies this, owner.Keys
      ensures Valid() && fresh(owner.Keys - old(owner.Keys)) && maxReplay == old(maxReplay)
      ensures log == old(log) + AppendEntries(ev, old(replay).Keys, old(replayLru), maxReplay)
    {
      hide Owned, Tracks, Oldest;
      if ev.token {
        return;
      }
      if ev.taskId !in replayIdx {
        EvictReplay();
      }
      Place(ev);
    }

    /** The task goes to the back of the list, and the event to its buffer. */
    method Place(ev: Event)
      requires Valid() && (ev.taskId in replay || |replay.Keys| < maxReplay)
      modifies this, owner.Keys
      ensures Valid() && fresh(owner.Keys - old(owner.Keys)) && maxReplay == old(maxReplay)
        && log == old(log) + [Published(ev)]
    {
      assert view.Keys == replay.Keys;
      hide Owned, Tracks, Buffered, Without, Distinct, LastOf;
      PublishTracks(log, view, replayLru, ev);
      Put(ev, Without(replayLru, ev.taskId) + [ev.taskId]);
    }

    /** `dropReplayLocked`. */
    method DropReplay(t: int)
      requires Valid()
      modifies `replay, `replayLru, `replayIdx, `log, `view
      ensures Valid() && log == old(log) + [Removed(t)] && replay.Keys == old(replay.Keys) - {t}
    {
      TracksKeys(log, view, replayLru);
      assert view.Keys == replay.Keys;
      hide Owned, Tracks, Without, Distinct;
      RemoveTracks(log, view, replayLru, t);
      Subset(replay.Keys - {t}, replay.Keys);
      var rest := replayLru;
      if t in replayIdx {
        rest := Without(replayLru, t);
      } else {
        WithoutAbsent(replayLru, t);
      }
      Forget(t, rest);
    }
  }

  // ---------- Subscriptions ----------

  const QUEUE_CAP: nat := 128

  datatype Sub = Sub(taskId: int, userId: int)

  datatype SubscribeError = TooManyConnections | UserConnectionsExceeded

  function OfUser(u: int): Sub -> bool {
    (s: Sub) => s.userId == u
  }

  function CountOf(userSubs: map<int, int>, u: int): int {
    if u in userSubs then userSubs[u] else 0
  }

  /** The two-level table holds exactly the open channels. */
  ghost predicate TableOk(subs: map<int, map<int, int>>, open: map<int, Sub>) {
    && (forall t :: t in subs ==> subs[t].Keys != {})
    && (forall t, c :: t in subs && c in subs[t] ==> c in open && open[c] == Sub(t, subs[t][c]))
    && (forall c :: c in open ==> open[c].taskId in subs && c in subs[open[c].taskId])
  }

  /** The counters are the true numbers of subscriptions. */
  ghost predicate CountsOk(subCount: int, userSubs: map<int, int>, open: map<int, Sub>) {
    && subCount == |open|
    && (forall u :: u in userSubs ==> userSubs[u] > 0)
    && (forall u {:trigger OfUser(u)} :: CountOf(userSubs, u) == |Where(open, OfUser(u))|)
  }

  /** The table with one more channel. */
  function Added(subs: map<int, map<int, int>>, ch: int, s: Sub): map<int, map<int, int>> {
    subs[s.taskId := (if s.taskId in subs then subs[s.taskId] else map[])[ch := s.userId]]
  }

  /** The table without a channel; a task without channels loses its entry. */
  function Dropped(subs: map<int, map<int, int>>, ch: int, t: int): map<int, map<int, int>>
    requires t in subs
  {
    if (subs[t] - {ch}).Keys == {} then subs - {t} else subs[t := subs[t] - {ch}]
  }

  lemma AddedTable(subs: map<int, map<int, int>>, open: map<int, Sub>, ch: int, s: Sub)
    requires TableOk(subs, open) && ch !in open
    ensures TableOk(Added(subs, ch, s), open[ch := s])
  {
    assert ch in Added(subs, ch, s)[s.taskId];
  }

  lemma DroppedTable(subs: map<int, map<int, int>>, open: map<int, Sub>, ch: int, t: int)
    requires TableOk(subs, open) && t in subs && ch in subs[t]
    ensures TableOk(Dropped(subs, ch, t), open - {ch})
  {
    var rest, after := subs[t] - {ch}, Dropped(subs, ch, t);
    forall c | c in open && c != ch ensures open[c].taskId in after && c in after[open[c].taskId] {
      assert open[c].taskId == t ==> c in rest.Keys;
    }
    forall u, c | u in after && c in after[u] ensures c in open - {ch} && open[c] == Sub(u, after[u][c]) {
      assert c in subs[u] && open[c] == Sub(u, subs[u][c]) && open[ch].taskId == t;
    }
    forall u | u in after ensures after[u].Keys != {} {
      assert u != t ==> after[u] == subs[u];
    }
  }

  lemma AddedCounts(subCount: int, userSubs: map<int, int>, open: map<int, Sub>, ch: int, s: Sub)
    requires CountsOk(subCount, userSubs, open) && ch !in open
    ensures CountsOk(subCount + 1, userSubs[s.userId := CountOf(userSubs, s.userId) + 1], open[ch := s])
  {
    forall u { WhereAdd(open, ch, s, OfUser(u)); }
    assert open[ch := s].Keys == open.Keys + {ch};
    hide Where;
  }

  /** The user counters after one subscription ended. */
  function Lowered(userSubs: map<int, int>, u: int): map<int, int> {
    if CountOf(userSubs, u) - 1 <= 0 then userSubs - {u} else userSubs[u := CountOf(userSubs, u) - 1]
  }

  lemma DroppedCounts(subCount: int, userSubs: map<int, int>, open: map<int, Sub>, ch: int)
    requires CountsOk(subCount, userSubs, open) && ch in open
    ensures CountsOk(subCount - 1, Lowered(userSubs, open[ch].userId), open - {ch})
  {
    var u0 := open[ch].userId;
    assert ch in Where(open, OfUser(u0));
    forall u { WhereRemove(open, ch, OfUser(u)); }
    assert open.Keys == (open - {ch}).Keys + {ch};
    assert |Where(open, OfUser(u0))| > 0;
    hide Where;
  }

  /** A non-blocking send: the queue of one channel after an event. */
  function Offered(q: seq<Event>, ev: Event): seq<Event> {
    if |q| < QUEUE_CAP then q + [ev] else q
  }

  /** Non-blocking sends one after the other. */
  function OfferedAll(q: seq<Event>, evs: seq<Event>): seq<Event> {
    if evs == [] then q else Offered(OfferedAll(q, evs[..|evs| - 1]), evs[|evs| - 1])
  }

  lemma OfferedMore(q: seq<Event>, evs: seq<Event>, ev: Event)
    ensures OfferedAll(q, []) == q
    ensures OfferedAll(q, evs + [ev]) == Offered(OfferedAll(q, evs), ev)
  {
    assert (evs + [ev])[..|evs|] == evs;
  }

  lemma {:induction false} OfferedBound(q: seq<Event>, evs: seq<Event>)
    requires |q| <= QUEUE_CAP
    ensures |OfferedAll(q, evs)| <= QUEUE_CAP && OfferedAll(q, []) == q
  {
    if evs != [] { OfferedBound(q, evs[..|evs| - 1]); }
  }

  /** The events of one task. */
  ghost function OfTask(evs: seq<Event>, t: int): seq<Event> {
    if evs == [] then []
    else OfTask(evs[..|evs| - 1], t) + if evs[|evs| - 1].taskId == t then [evs[|evs| - 1]] else []
  }

  /** What there is room for arrives in order behind what is there; the rest is dropped. */
  lemma {:induction false} OfferedFits(q: seq<Event>, evs: seq<Event>)
    requires |q| <= 128
    ensures OfferedAll(q, evs) == q + evs[..if |q| + |evs| <= 128 then |evs| else 128 - |q|]
  {
    if evs != [] {
      var init, last := evs[..|evs| - 1], evs[|evs| - 1];
      OfferedFits(q, init);
      assert evs == init + [last];
      if |q| + |evs| <= 128 {
        assert init[..|init|] == init && evs[..|evs|] == evs;
        assert q + evs == (q + init) + [last];
      } else {
        assert init[..128 - |q|] == evs[..128 - |q|];
        assert |OfferedAll(q, init)| == 128;
      }
    } else {
      assert q + evs == q && evs[..|evs|] == evs;
    }
  }

  lemma {:induction false} OfferedConcat(q: seq<Event>, a: seq<Event>, b: seq<Event>)
    ensures OfferedAll(q, a + b) == OfferedAll(OfferedAll(q, a), b)
  {
    if b != [] {
      OfferedConcat(q, a, b[..|b| - 1]);
      assert (a + b)[..|a + b| - 1] == a + b[..|b| - 1];
    } else {
      assert a + b == a;
    }
  }

  lemma OfTaskMore(evs: seq<Event>, i: nat, t: int)
    requires i < |evs|
    ensures OfTask(evs[..i + 1], t) ==
      if evs[i].taskId == t then OfTask(evs[..i], t) + [evs[i]] else OfTask(evs[..i], t)
    ensures OfTask(evs[..0], t) == []
  {
    assert evs[..i + 1][..i] == evs[..i];
    assert OfTask(evs[..i], t) + [] == OfTask(evs[..i], t);
  }

  lemma {:induction false} OfTaskConcat(a: seq<Event>, b: seq<Event>, t: int)
    ensures OfTask(a + b, t) == OfTask(a, t) + OfTask(b, t)
  {
    if b != [] {
      OfTaskConcat(a, b[..|b| - 1], t);
      assert (a + b)[..|a + b| - 1] == a + b[..|b| - 1];
    } else {
      assert a + b == a;
    }
  }

  /** What is sent to channel `c` when `live[i]` is published before `backlog[i]` is sent to `ch`. */
  ghost function Heard(open: map<int, Sub>, ch: int, backlog: seq<Event>, live: seq<seq<Event>>, c: int): seq<Event>
    requires |backlog| == |live| && c in open
  {
    if live == [] then []
    else
      var last := |live| - 1;
      Heard(open, ch, backlog[..last], live[..last], c)
        + (OfTask(live[last], open[c].taskId) + if c == ch then [backlog[last]] else [])
  }

  lemma HeardMore(open: map<int, Sub>, ch: int, backlog: seq<Event>, live: seq<seq<Event>>, i: nat, c: int)
    requires i < |backlog| == |live| && c in open
    ensures Heard(open, ch, backlog[..i + 1], live[..i + 1], c) == Heard(open, ch, backlog[..i], live[..i], c)
      + (OfTask(live[i], open[c].taskId) + if c == ch then [backlog[i]] else [])
  {
    assert backlog[..i + 1][..i] == backlog[..i] && live[..i + 1][..i] == live[..i];
  }

  lemma HeardStep(open: map<int, Sub>, ch: int, backlog: seq<Event>, live: seq<seq<Event>>, i: nat, c: int,
                  q: seq<Event>)
    requires i < |backlog| == |live| && c in open
    ensures OfferedAll(q, Heard(open, ch, backlog[..i + 1], live[..i + 1], c)) ==
      var r := OfferedAll(OfferedAll(q, Heard(open, ch, backlog[..i], live[..i], c)), OfTask(live[i], open[c].taskId));
      if c == ch then Offered(r, backlog[i]) else r
  {
    var before, more := Heard(open, ch, backlog[..i], live[..i], c), OfTask(live[i], open[c].taskId);
    HeardMore(open, ch, backlog, live, i, c);
    OfferedConcat(q, before, more + if c == ch then [backlog[i]] else []);
    OfferedMore(OfferedAll(q, before), more, backlog[i]);
    assert more + [] == more;
    hide *;
  }

  /** The queues after the events `evs` have been published. */
  ghost predicate Hearing(open: map<int, Sub>, before: map<int, seq<Event>>, now: map<int, seq<Event>>,
                          evs: seq<Event>) {
    && now.Keys == before.Keys == open.Keys
    && forall c :: c in now ==> now[c] == OfferedAll(before[c], OfTask(evs, open[c].taskId))
  }

  lemma HearingNothing(open: map<int, Sub>, queues: map<int, seq<Event>>, evs: seq<Event>)
    requires queues.Keys == open.Keys
    ensures Hearing(open, queues, queues, evs[..0])
  {
    forall c | c in queues { NothingOffered(queues[c], open[c].taskId); }
  }

  lemma HearingMore(open: map<int, Sub>, before: map<int, seq<Event>>, now: map<int, seq<Event>>,
                    next: map<int, seq<Event>>, evs: seq<Event>, i: nat)
    requires i < |evs| && Hearing(open, before, now, evs[..i]) && next.Keys == now.Keys
    requires forall c :: c in next ==>
      next[c] == if open[c].taskId == evs[i].taskId then Offered(now[c], evs[i]) else now[c]
    ensures Hearing(open, before, next, evs[..i + 1])
  {
    hide OfTask, OfferedAll, Offered;
    forall c | c in next ensures next[c] == OfferedAll(before[c], OfTask(evs[..i + 1], open[c].taskId)) {
      OfTaskMore(evs, i, open[c].taskId);
      OfferedMore(before[c], OfTask(evs[..i], open[c].taskId), evs[i]);
    }
  }

  /** The queues after the backlog has been sent to `ch` and the events `live` have been published meanwhile. */
  ghost predicate Following(open: map<int, Sub>, ch: int, before: map<int, seq<Event>>, now: map<int, seq<Event>>,
                            backlog: seq<Event>, live: seq<seq<Event>>) {
    && now.Keys == before.Keys == open.Keys && |backlog| == |live|
    && forall c :: c in now ==> now[c] == OfferedAll(before[c], Heard(open, ch, backlog, live, c))
  }

  lemma FollowingNothing(open: map<int, Sub>, ch: int, queues: map<int, seq<Event>>, backlog: seq<Event>,
                         live: seq<seq<Event>>)
    requires queues.Keys == open.Keys
    ensures Following(open, ch, queues, queues, backlog[..0], live[..0])
  {
  }

  lemma FollowingMore(open: map<int, Sub>, ch: int, before: map<int, seq<Event>>, now: map<int, seq<Event>>,
                      between: map<int, seq<Event>>, next: map<int, seq<Event>>, backlog: seq<Event>,
                      live: seq<seq<Event>>, i: nat)
    requires i < |backlog| == |live| && Following(open, ch, before, now, backlog[..i], live[..i])
    requires Hearing(open, now, between, live[i]) && ch in between
    requires next == between[ch := Offered(between[ch], backlog[i])]
    ensures Following(open, ch, before, next, backlog[..i + 1], live[..i + 1])
  {
    hide OfTask, OfferedAll, Offered, Heard;
    forall c | c in next
      ensures next[c] == OfferedAll(before[c], Heard(open, ch, backlog[..i + 1], live[..i + 1], c))
    {
      HeardStep(open, ch, backlog, live, i, c, before[c]);
    }
  }

  lemma NothingOffered(q: seq<Event>, t: int)
    ensures OfTask([], t) == [] && OfferedAll(q, []) == q
  {
  }

  /** `a` is a subsequence of `b`. */
  ghost predicate Within<T>(a: seq<T>, b: seq<T>)
    decreases |b|
  {
    a == [] ||
    (b != [] && Within(if a[|a| - 1] == b[|b| - 1] then a[..|a| - 1] else a, b[..|b| - 1]))
  }

  lemma {:induction false} WithinInit<T>(a: seq<T>, b: seq<T>)
    requires a != [] && Within(a, b)
    ensures Within(a[..|a| - 1], b)
    decreases |b|
  {
    var init := a[..|a| - 1];
    if init != [] {
      if a[|a| - 1] != b[|b| - 1] {
        WithinInit(a, b[..|b| - 1]);
      }
      if init[|init| - 1] == b[|b| - 1] {
        WithinInit(init, b[..|b| - 1]);
      }
    }
  }

  lemma WithinMore<T>(a: seq<T>, b: seq<T>, x: T)
    requires Within(a, b)
    ensures Within(a, b + [x]) && Within(a + [x], b + [x])
  {
    assert (a + [x])[..|a|] == a && (b + [x])[..|b|] == b;
    if a != [] { WithinInit(a, b); }
  }

  lemma {:induction false} WithinConcat<T>(a: seq<T>, b: seq<T>, c: seq<T>)
    requires Within(a, b)
    ensures Within(a, b + c) && Within(a + c, b + c)
  {
    if c != [] {
      var init, x := c[..|c| - 1], c[|c| - 1];
      WithinConcat(a, b, init);
      assert a + c == (a + init) + [x] && b + c == (b + init) + [x];
      WithinMore(a, b + init, x);
      WithinMore(a + init, b + init, x);
    } else {
      assert a + c == a && b + c == b;
    }
  }

  ghost function Flat(live: seq<seq<Event>>): seq<Event> {
    if live == [] then [] else Flat(live[..|live| - 1]) + live[|live| - 1]
  }

  lemma WithinRound<T>(a: seq<T>, b: seq<T>, h: seq<T>, more: seq<T>, x: T)
    requires Within(a, h) && Within(b, h)
    ensures Within(a + [x], h + (more + [x])) && Within(b + more, h + (more + [x]))
  {
    WithinConcat(a, h, more);
    WithinConcat(b, h, more);
    WithinMore(a, h + more, x);
    WithinMore(b + more, h + more, x);
    assert h + (more + [x]) == (h + more) + [x];
    hide Within;
  }

  /** The subscriber is sent the whole backlog and whatever is published meanwhile, each in order. */
  lemma {:induction false} HeardAll(open: map<int, Sub>, ch: int, backlog: seq<Event>, live: seq<seq<Event>>)
    requires |backlog| == |live| && ch in open
    ensures Within(backlog, Heard(open, ch, backlog, live, ch))
    ensures Within(OfTask(Flat(live), open[ch].taskId), Heard(open, ch, backlog, live, ch))
    decreases |live|
  {
    if live != [] {
      var last, t := |live| - 1, open[ch].taskId;
      HeardAll(open, ch, backlog[..last], live[..last]);
      OfTaskConcat(Flat(live[..last]), live[last], t);
      hide Within, OfTask;
      WithinRound(backlog[..last], OfTask(Flat(live[..last]), t), Heard(open, ch, backlog[..last], live[..last], ch),
        OfTask(live[last], t), backlog[last]);
      assert backlog[..last] + [backlog[last]] == backlog;
    } else {
      assert backlog == [];
    }
  }

  lemma {:induction false} HeardLength(open: map<int, Sub>, ch: int, backlog: seq<Event>, live: seq<seq<Event>>)
    requires |backlog| == |live| && ch in open
    ensures |Heard(open, ch, backlog, live, ch)| >= |backlog|
    ensures |Heard(open, ch, backlog, live, ch)| == |backlog| <==>
      forall i :: 0 <= i < |live| ==> OfTask(live[i], open[ch].taskId) == []
    ensures (forall i :: 0 <= i < |live| ==> OfTask(live[i], open[ch].taskId) == []) ==>
      Heard(open, ch, backlog, live, ch) == backlog
    decreases |live|
  {
    if live != [] {
      var last := |live| - 1;
      hide OfTask;
      HeardLength(open, ch, backlog[..last], live[..last]);
      assert backlog[..last] + [backlog[last]] == backlog;
      assert forall i :: 0 <= i < last ==> live[..last][i] == live[i];
    }
  }

  /** The backlog comes alone iff no event of the task is published before its last event is sent. */
  lemma BacklogAloneIff(open: map<int, Sub>, ch: int, backlog: seq<Event>, live: seq<seq<Event>>)
    requires |backlog| == |live| && ch in open
    ensures Heard(open, ch, backlog, live, ch) == backlog <==>
      forall i :: 0 <= i < |live| ==> OfTask(live[i], open[ch].taskId) == []
  {
    HeardLength(open, ch, backlog, live);
  }

  /** The number of channels that cannot take an event. */
  ghost function Full(channels: set<int>, queues: map<int, seq<Event>>): int {
    |set c | c in channels && c in queues && |queues[c]| >= QUEUE_CAP|
  }

  /** The subscription tables, the counters within their limits, and the queues of the open channels. */
  datatype Table = Table(subs: map<int, map<int, int>>, subCount: int, userSubs: map<int, int>,
                         queues: map<int, seq<Event>>, nextChannel: int)

  ghost predicate TableInv(x: Table, open: map<int, Sub>, maxPerUser: int, maxTotal: int) {
    && TableOk(x.subs, open) && CountsOk(x.subCount, x.userSubs, open)
    && x.queues.Keys == open.Keys && (forall c :: c in x.queues ==> |x.queues[c]| <= QUEUE_CAP && c < x.nextChannel)
    && x.subCount <= maxTotal && (forall u :: u in x.userSubs ==> x.userSubs[u] <= maxPerUser)
  }

  lemma TrueCounts(x: Table, open: map<int, Sub>, maxPerUser: int, maxTotal: int, userId: int)
    requires TableInv(x, open, maxPerUser, maxTotal)
    ensures x.subCount == |open| && CountOf(x.userSubs, userId) == |Where(open, OfUser(userId))|
  {
    assert OfUser(userId) == OfUser(userId);
    hide Where;
  }

  lemma RegisterInv(x: Table, open: map<int, Sub>, maxPerUser: int, maxTotal: int, s: Sub)
    requires TableInv(x, open, maxPerUser, maxTotal)
    requires x.subCount < maxTotal && CountOf(x.userSubs, s.userId) < maxPerUser
    ensures x.nextChannel !in open
    ensures TableInv(Table(Added(x.subs, x.nextChannel, s), x.subCount + 1,
                           x.userSubs[s.userId := CountOf(x.userSubs, s.userId) + 1],
                           x.queues[x.nextChannel := []], x.nextChannel + 1),
                     open[x.nextChannel := s], maxPerUser, maxTotal)
  {
    assert x.nextChannel !in open.Keys;
    AddedTable(x.subs, open, x.nextChannel, s);
    AddedCounts(x.subCount, x.userSubs, open, x.nextChannel, s);
    hide TableOk, CountsOk, Added;
  }

  lemma DeregisterInv(x: Table, open: map<int, Sub>, maxPerUser: int, maxTotal: int, ch: int, t: int)
    requires TableInv(x, open, maxPerUser, maxTotal) && t in x.subs && ch in x.subs[t]
    ensures TableInv(Table(Dropped(x.subs, ch, t), x.subCount - 1, Lowered(x.userSubs, x.subs[t][ch]),
                           x.queues - {ch}, x.nextChannel),
                     open - {ch}, maxPerUser, maxTotal)
  {
    assert ch in open && open[ch].userId == x.subs[t][ch];
    DroppedTable(x.subs, open, ch, t);
    DroppedCounts(x.subCount, x.userSubs, open, ch);
    hide TableOk, CountsOk, Dropped;
  }

  ghost function ChannelsOf(open: map<int, Sub>, t: int): set<int> {
    set c | c in open && open[c].taskId == t
  }

  lemma TableChannels(subs: map<int, map<int, int>>, open: map<int, Sub>, t: int)
    requires TableOk(subs, open)
    ensures ChannelsOf(open, t) == if t in subs then subs[t].Keys else {}
  {
    forall c ensures c in ChannelsOf(open, t) <==> t in subs && c in subs[t].Keys {}
  }

  lemma LastChannel(x: Table, open: map<int, Sub>, maxPerUser: int, maxTotal: int, ch: int, t: int)
    requires TableInv(x, open, maxPerUser, maxTotal) && t in x.subs && ch in x.subs[t]
    ensures (x.subs[t] - {ch}).Keys == {} <==> ChannelsOf(open - {ch}, t) == {}
  {
    TableChannels(x.subs, open, t);
    assert ChannelsOf(open - {ch}, t) == ChannelsOf(open, t) - {ch};
    assert (x.subs[t] - {ch}).Keys == x.subs[t].Keys - {ch};
  }

  lemma Listed(subs: map<int, map<int, int>>, open: map<int, Sub>, ch: int, t: int)
    requires TableOk(subs, open)
    ensures t in subs && ch in subs[t] <==> ch in open && open[ch].taskId == t
  {
  }

  lemma NoneFull(queues: map<int, seq<Event>>)
    ensures Full({}, queues) == 0
  {
    var full := set x | x in queues && |queues[x]| >= QUEUE_CAP;
    assert Full({}, queues) == |{} * full|;
  }

  lemma FullMore(done: set<int>, queues: map<int, seq<Event>>, c: int)
    requires c !in done && c in queues
    ensures Full(done + {c}, queues) == Full(done, queues) + if |queues[c]| < QUEUE_CAP then 0 else 1
  {
    var before := set x | x in done && x in queues && |queues[x]| >= QUEUE_CAP;
    var after := set x | x in done + {c} && x in queues && |queues[x]| >= QUEUE_CAP;
    assert after == before + if |queues[c]| < QUEUE_CAP then {} else {c};
  }

  class EventHub {
    const replays: Replay
    var subs: map<int, map<int, int>>       // task -> channel -> user
    var queues: map<int, seq<Event>>        // what each open channel holds
    var nextChannel: int
    var subCount: int
    var userSubs: map<int, int>
    var dropped: int
    const maxPerUser: int
    const maxTotal: int
    ghost var open: map<int, Sub>

    ghost function Tables(): Table
      reads this
    {
      Table(subs, subCount, userSubs, queues, nextChannel)
    }

    ghost predicate SubsOk()
      reads this
    {
      TableInv(Tables(), open, maxPerUser, maxTotal)
    }

    ghost predicate Valid()
      reads this, replays, replays.owner.Keys
    {
      && SubsOk() && replays.Valid() && this !in replays.owner
    }

    constructor (perUser: int, total: int)
      requires 0 < perUser && 0 < total
      ensures Valid() && open == map[] && queues == map[] && maxPerUser == perUser && maxTotal == total
        && fresh(replays)
    {
      replays := new Replay();
      subs, queues, nextChannel, subCount, userSubs, dropped := map[], map[], 0, 0, map[], 0;
      maxPerUser, maxTotal, open := perUser, total, map[];
      new;
      forall u { WhereNone(open, OfUser(u)); }
    }

    method Register(s: Sub) returns (ch: int)
      requires SubsOk() && subCount < maxTotal && CountOf(userSubs, s.userId) < maxPerUser
      modifies `subs, `subCount, `userSubs, `nextChannel, `queues, `open
      ensures SubsOk() && ch !in old(open) && open == old(open)[ch := s] && queues == old(queues)[ch := []]
    {
      hide TableInv, CountOf, Added;
      RegisterInv(Tables(), open, maxPerUser, maxTotal, s);
      ch := nextChannel;
      subs := Added(subs, ch, s);
      subCount := subCount + 1;
      userSubs := userSubs[s.userId := CountOf(userSubs, s.userId) + 1];
      nextChannel := nextChannel + 1;
      queues := queues[ch := []];
      open := open[ch := s];
    }

    /** Opens a channel within the limits of the user and of the hub. */
    method Admit(s: Sub) returns (r: Result<int, SubscribeError>)
      requires SubsOk()
      modifies `subs, `subCount, `userSubs, `nextChannel, `queues, `open
      ensures SubsOk()
      ensures match r
        case Failure(TooManyConnections) => old(subCount) >= maxTotal
        case Failure(UserConnectionsExceeded) =>
          old(subCount) < maxTotal && CountOf(old(userSubs), s.userId) >= maxPerUser
        case Success(_) => old(subCount) < maxTotal && CountOf(old(userSubs), s.userId) < maxPerUser
      ensures match r
        case Failure(_) => open == old(open) && queues == old(queues)
        case Success(ch) => ch !in old(open) && open == old(open)[ch := s] && queues == old(queues)[ch := []]
    {
      hide TableInv, CountOf;
      if subCount >= maxTotal {
        return Failure(TooManyConnections);
      }
      if CountOf(userSubs, s.userId) >= maxPerUser {
        return Failure(UserConnectionsExceeded);
      }
      var ch := Register(s);
      r := Success(ch);
    }

    /** What `Subscribe` does under the mutex: it opens a channel and copies the backlog, but sends nothing yet. */
    method Subscribe(taskId: int, userId: int) returns (r: Result<int, SubscribeError>, backlog: array<Event>)
      requires Valid()
      modifies this
      ensures Valid() && fresh(backlog)
      ensures backlog[..] == LastOf(Since(replays.log, taskId), REPLAY_CAP)
      ensures match r
        case Failure(TooManyConnections) => |old(open)| >= maxTotal
        case Failure(UserConnectionsExceeded) =>
          |old(open)| < maxTotal && |Where(old(open), OfUser(userId))| >= maxPerUser
        case Success(_) => |old(open)| < maxTotal && |Where(old(open), OfUser(userId))| < maxPerUser
      ensures match r
        case Failure(_) => open == old(open) && queues == old(queues)
        case Success(ch) =>
          ch !in old(open) && open == old(open)[ch := Sub(taskId, userId)] && queues == old(queues)[ch := []]
    {
      TrueCounts(Tables(), open, maxPerUser, maxTotal, userId);
      hide TableInv, Where, CountOf, Since, LastOf, Replay.Valid;
      backlog := Snapshot(taskId);
      r := Admit(Sub(taskId, userId));
    }

    method Snapshot(taskId: int) returns (backlog: array<Event>)
      requires Valid()
      ensures fresh(backlog) && backlog[..] == LastOf(Since(replays.log, taskId), REPLAY_CAP)
        && |backlog[..]| <= REPLAY_CAP
    {
      if taskId in replays.replay {
        assert replays.BufferOk(taskId);
        backlog := replays.replay[taskId].Backlog();
      } else {
        assert taskId !in replays.view;
        backlog := new Event[0];
      }
    }

    method Deregister(taskId: int, ch: int) returns (last: bool)
      requires SubsOk() && taskId in subs && ch in subs[taskId]
      modifies `subs, `subCount, `userSubs, `queues, `open
      ensures SubsOk() && open == old(open) - {ch} && queues == old(queues) - {ch}
      ensures last <==> ChannelsOf(open, taskId) == {}
    {
      DeregisterInv(Tables(), open, maxPerUser, maxTotal, ch, taskId);
      LastChannel(Tables(), open, maxPerUser, maxTotal, ch, taskId);
      hide TableInv, Lowered, ChannelsOf, Dropped;
      last := (subs[taskId] - {ch}).Keys == {};
      userSubs := Lowered(userSubs, subs[taskId][ch]);
      subs := Dropped(subs, ch, taskId);
      subCount := subCount - 1;
      queues := queues - {ch};
      open := open - {ch};
    }

    method DropIf(taskId: int, last: bool)
      requires replays.Valid()
      modifies replays`replay, replays`replayLru, replays`replayIdx, replays`log, replays`view
      ensures replays.Valid() && replays.log == old(replays.log) + if last then [Removed(taskId)] else []
    {
      if last {
        replays.DropReplay(taskId);
      }
    }

    /** The unsubscribe function of a channel; calls after the first find nothing to do. */
    method Unsubscribe(taskId: int, ch: int)
      requires Valid()
      modifies this, replays
      ensures Valid()
      ensures if old(ch in open && open[ch].taskId == taskId)
        then open == old(open) - {ch} && queues == old(queues) - {ch} && replays.log == old(replays.log)
          + if ChannelsOf(open, taskId) == {} then [Removed(taskId)] else []
        else open == old(open) && queues == old(queues) && replays.log == old(replays.log)
    {
      Listed(subs, open, ch, taskId);
      hide TableInv, ChannelsOf, Replay.Valid;
      if taskId in subs && ch in subs[taskId] {
        var last := Deregister(taskId, ch);
        DropIf(taskId, last);
      }
    }

    /** `select { case c <- ev: default: dropped++ }`. */
    method Send(c: int, ev: Event)
      requires c in queues
      modifies `queues, `dropped
      ensures queues == old(queues)[c := Offered(old(queues)[c], ev)]
      ensures dropped == old(dropped) + if old(|queues[c]|) < QUEUE_CAP then 0 else 1
    {
      if |queues[c]| < QUEUE_CAP {
        queues := queues[c := queues[c] + [ev]];
      } else {
        dropped := dropped + 1;
      }
    }

    method Spread(channels: set<int>, ev: Event)
      requires channels <= queues.Keys
      modifies `queues, `dropped
      ensures queues.Keys == old(queues.Keys)
      ensures forall c :: c in queues ==>
        queues[c] == if c in channels then Offered(old(queues)[c], ev) else old(queues)[c]
      ensures dropped == old(dropped) + Full(channels, old(queues))
    {
      hide Full, Offered;
      var todo := channels;
      ghost var sent := {};
      NoneFull(queues);
      while todo != {}
        invariant todo <= channels && sent == channels - todo
        invariant queues.Keys == old(queues.Keys)
        invariant forall c :: c in queues ==>
          queues[c] == if c in sent then Offered(old(queues)[c], ev) else old(queues)[c]
        invariant dropped == old(dropped) + Full(sent, old(queues))
        decreases |todo|
      {
        HasMember(todo);
        var c :| c in todo;
        FullMore(sent, old(queues), c);
        Send(c, ev);
        todo, sent := todo - {c}, sent + {c};
      }
      assert sent == channels;
    }

    /** Offers the event to every channel of its task; what does not fit is dropped and counted. */
    method Broadcast(ev: Event)
      requires SubsOk()
      modifies `queues, `dropped
      ensures SubsOk() && queues.Keys == old(queues.Keys)
      ensures forall c :: c in queues ==>
        queues[c] == if open[c].taskId == ev.taskId then Offered(old(queues)[c], ev) else old(queues)[c]
      ensures dropped == old(dropped) + Full(ChannelsOf(open, ev.taskId), old(queues))
    {
      TableChannels(subs, open, ev.taskId);
      assert ChannelsOf(open, ev.taskId) <= queues.Keys;
      hide TableOk, CountsOk, Full;
      Spread(if ev.taskId in subs then subs[ev.taskId].Keys else {}, ev);
    }

    /** `Publish`: the replay buffers first, then the channels. */
    method Publish(ev: Event)
      requires Valid()
      modifies this, replays, replays.owner.Keys
      ensures Valid() && open == old(open) && queues.Keys == old(queues.Keys)
      ensures fresh(replays.owner.Keys - old(replays.owner.Keys))
      ensures replays.log == old(replays.log)
        + AppendEntries(ev, old(replays.replay).Keys, old(replays.replayLru), replays.maxReplay)
      ensures forall c :: c in queues ==>
        queues[c] == if open[c].taskId == ev.taskId then Offered(old(queues)[c], ev) else old(queues)[c]
      ensures dropped == old(dropped) + Full(ChannelsOf(open, ev.taskId), old(queues))
    {
      hide TableInv, AppendEntries, ChannelsOf, Offered, Full, Replay.Owned, Tracks;
      replays.AppendReplay(ev);
      Broadcast(ev);
    }

    lemma KeysOpen()
      requires Valid()
      ensures queues.Keys == open.Keys
    {
    }

    /** What other goroutines publish, one after the other. */
    method PublishAll(evs: seq<Event>)
      requires Valid()
      modifies this, replays, replays.owner.Keys
      ensures Valid() && open == old(open) && Hearing(open, old(queues), queues, evs)
      ensures fresh(replays.owner.Keys - old(replays.owner.Keys))
    {
      hide *;
      KeysOpen();
      HearingNothing(open, queues, evs);
      for i := 0 to |evs|
        invariant Valid() && open == old(open) && Hearing(open, old(queues), queues, evs[..i])
        invariant fresh(replays.owner.Keys - old(replays.owner.Keys))
      {
        ghost var before := queues;
        KeysOpen();
        Publish(evs[i]);
        HearingMore(open, old(queues), before, queues, evs, i);
      }
      assert evs[..|evs|] == evs;
    }

    /** A non-blocking send of one replayed event; one that does not fit is not counted. */
    method Replayed(ch: int, ev: Event)
      requires SubsOk() && ch in queues
      modifies `queues
      ensures SubsOk() && queues == old(queues)[ch := Offered(old(queues)[ch], ev)]
    {
      if |queues[ch]| < QUEUE_CAP {
        queues := queues[ch := queues[ch] + [ev]];
      }
    }

    /** Others publish `evs`, and then one event of a backlog is sent. */
    method SendNext(ch: int, ev: Event, evs: seq<Event>) returns (ghost between: map<int, seq<Event>>)
      requires Valid() && ch in queues
      modifies this, replays, replays.owner.Keys
      ensures Valid() && open == old(open) && fresh(replays.owner.Keys - old(replays.owner.Keys))
      ensures Hearing(open, old(queues), between, evs) && ch in between
      ensures queues == between[ch := Offered(between[ch], ev)]
    {
      hide TableInv, Replay.Valid, Offered, OfferedAll, OfTask;
      KeysOpen();
      PublishAll(evs);
      KeysOpen();
      between := queues;
      Replayed(ch, ev);
    }

    /**
     What `Subscribe` does after it gave up the mutex: it sends the backlog, while others publish
     `live[i]` before event number `i`.  Nobody else knows the channel yet, so it stays open.
     */
    method SendBacklog(ch: int, backlog: array<Event>, live: seq<seq<Event>>)
      requires Valid() && ch in queues && |live| == backlog.Length
      modifies this, replays, replays.owner.Keys
      ensures Valid() && open == old(open) && Following(open, ch, old(queues), queues, old(backlog[..]), live)
    {
      hide *;
      var sent := backlog[..];
      KeysOpen();
      FollowingNothing(open, ch, queues, sent, live);
      for i := 0 to |sent|
        invariant Valid() && open == old(open) && ch in queues
        invariant fresh(replays.owner.Keys - old(replays.owner.Keys))
        invariant Following(open, ch, old(queues), queues, sent[..i], live[..i])
      {
        ghost var before := queues;
        ghost var between := SendNext(ch, sent[i], live[i]);
        FollowingMore(open, ch, old(queues), before, between, queues, sent, live, i);
      }
      assert sent[..|sent|] == sent && live[..|live|] == live;
    }
  }
}
