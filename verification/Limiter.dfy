/**
 The in-memory rate limiter (`internal/ratelimit/limiter.go`) on a monotone clock: a fixed window
 for each key, and a sweep of expired keys whenever a window opens.
 */
module Limiters {
  import opened Sorting

  /** The two maps of the limiter. */
  datatype State = State(counts: map<Key, int>, until: map<Key, int>)

  datatype Decision = Decision(allowed: bool, remaining: int)

  /** The window that is open for a key: what was counted in it and when it closes. */
  datatype Window = Closed | Open(count: int, until: int)

  /** What the limiter knows of a key at a time; nothing else matters for its decisions. */
  function WindowOf(st: State, key: Key, now: int): Window {
    if key in st.until && now < st.until[key]
    then Open(if key in st.counts then st.counts[key] else 0, st.until[key])
    else Closed
  }

  ghost predicate Covered(st: State) {
    st.until.Keys <= st.counts.Keys
  }

  /** `sweepLocked`. */
  ghost function Swept(st: State, now: int): State {
    State(map k | k in st.counts && !(k in st.until && st.until[k] <= now) :: st.counts[k],
          map k | k in st.until && now < st.until[k] :: st.until[k])
  }

  /** Sweeping changes no window at that time or later. */
  lemma SweepUnseen(st: State, now: int, key: Key, later: int)
    requires now <= later
    ensures WindowOf(Swept(st, now), key, later) == WindowOf(st, key, later)
  {
  }

  /** No expired window is left, every other key keeps its window and count. */
  lemma SweptDrops(st: State, now: int, key: Key)
    ensures key in Swept(st, now).until <==> key in st.until && now < st.until[key]
    ensures key in Swept(st, now).counts <==> key in st.counts && (key in st.until ==> now < st.until[key])
    ensures key in Swept(st, now).until ==> Swept(st, now).until[key] == st.until[key]
    ensures key in Swept(st, now).counts ==> Swept(st, now).counts[key] == st.counts[key]
  {
  }

  function Judged(n: int, limit: int): Decision {
    Decision(n <= limit, if limit - n < 0 then 0 else limit - n)
  }

  /** The window of the called key after a call. */
  function Counted(w: Window, limit: int, window: int, now: int): Window {
    if limit <= 0 then w
    else match w
      case Closed => Open(1, now + window)
      case Open(n, u) => Open(n + 1, u)
  }

  /** A call is the first of a window or one more in the open one; the limit counts the calls of the window. */
  lemma CallMeans(w: Window, limit: int, window: int, now: int)
    requires limit > 0
    ensures var n := if w.Closed? then 1 else w.count + 1;
      && Counted(w, limit, window, now) == Open(n, if w.Closed? then now + window else w.until)
      && Judged(n, limit) == Decision(n <= limit, if n < limit then limit - n else 0)
  {
  }

  class MemoryLimiter {
    var counts: map<Key, int>
    var until: map<Key, int>

    ghost function Contents(): State
      reads this
    {
      State(counts, until)
    }

    ghost predicate Valid()
      reads this
    {
      Covered(Contents())
    }

    constructor ()
      ensures Valid() && Contents() == State(map[], map[])
    {
      counts, until := map[], map[];
    }

    method Sweep(now: int)
      requires Valid()
      modifies this
      ensures Valid() && Contents() == Swept(old(Contents()), now)
    {
      var todo := until.Keys;
      while todo != {}
        invariant todo <= until.Keys && until.Keys <= old(until).Keys && Valid()
        invariant forall k :: k in old(until) && k !in todo ==> (k in until <==> now < old(until)[k])
        invariant forall k :: k in until ==> until[k] == old(until)[k]
        invariant forall k :: k in counts <==> k in old(counts) && !(k in old(until) && k !in until)
        invariant forall k :: k in counts ==> counts[k] == old(counts)[k]
        decreases |todo|
      {
        var k :| k in todo;
        todo := todo - {k};
        if now >= until[k] {
          until := until - {k};
          counts := counts - {k};
        }
      }
    }

    /** The decision depends on the key's window alone, and only that window changes. */
    method Allow(key: Key, limit: int, window: int, now: int) returns (d: Decision)
      requires Valid()
      modifies this
      ensures Valid()
      ensures limit <= 0 ==> d == Decision(true, 0) && Contents() == old(Contents())
      ensures limit > 0 ==> d == Judged(Counted(old(WindowOf(Contents(), key, now)), limit, window, now).count, limit)
      ensures limit > 0 && window > 0 ==>
        WindowOf(Contents(), key, now) == Counted(old(WindowOf(Contents(), key, now)), limit, window, now)
      ensures forall other, later :: other != key && now <= later ==>
        WindowOf(Contents(), other, later) == old(WindowOf(Contents(), other, later))
    {
      if limit <= 0 {
        return Decision(true, 0);
      }
      var w := WindowOf(State(counts, until), key, now);
      if w.Closed? {
        Reopen(key, window, now);
      }
      var n := (if key in counts then counts[key] else 0) + 1;
      counts := counts[key := n];
      d := Judged(n, limit);
    }

    /** Opens a window and sweeps. */
    method Reopen(key: Key, window: int, now: int)
      requires Valid()
      modifies this
      ensures Valid() && (key in counts ==> counts[key] == 0)
      ensures window > 0 ==> key in until && until[key] == now + window
      ensures forall other, later :: other != key && now <= later ==>
        WindowOf(Contents(), other, later) == old(WindowOf(Contents(), other, later))
    {
      counts := counts[key := 0];
      until := until[key := now + window];
      ghost var before := Contents();
      Sweep(now);
      forall other, later | other != key && now <= later
        ensures WindowOf(Contents(), other, later) == old(WindowOf(Contents(), other, later))
      {
        SweepUnseen(before, now, other, later);
      }
    }
  }

  // ---------- Bursts ----------

  /** Non-decreasing times of the calls for one key. */
  ghost predicate Monotone(times: seq<int>) {
    forall i, j :: 0 <= i < j < |times| ==> times[i] <= times[j]
  }

  /** The key's window after the first `n` calls, each with the same positive limit and window. */
  function WindowAfter(times: seq<int>, n: nat, limit: int, window: int): Window
    requires n <= |times|
  {
    if n == 0 then Closed
    else Counted(Seen(WindowAfter(times, n - 1, limit, window), times[n - 1]), limit, window, times[n - 1])
  }

  /** A window as it looks at a later time. */
  function Seen(w: Window, now: int): Window {
    if w.Open? && now < w.until then w else Closed
  }

  /** Call `n` is admitted. */
  predicate Admitted(times: seq<int>, n: nat, limit: int, window: int)
    requires n < |times|
  {
    var w := WindowAfter(times, n + 1, limit, window);
    w.Open? && w.count <= limit
  }

  /** The call that opened the window of call `n`. */
  function Opener(times: seq<int>, n: nat, window: int): (o: nat)
    requires n < |times|
    ensures o <= n
  {
    if n == 0 then 0
    else
      var o := Opener(times, n - 1, window);
      if times[n] < times[o] + window then o else n
  }

  /** The open window is the one of the opener, and counts the calls since. */
  lemma {:induction false} WindowIsOpeners(times: seq<int>, n: nat, limit: int, window: int)
    requires n < |times| && limit > 0 && window > 0
    ensures var o := Opener(times, n, window);
      WindowAfter(times, n + 1, limit, window) == Open(n - o + 1, times[o] + window)
  {
    if n > 0 { WindowIsOpeners(times, n - 1, limit, window); }
  }

  lemma {:induction false} OpenerWindow(times: seq<int>, n: nat, window: int)
    requires n < |times| && window > 0 && Monotone(times)
    ensures times[n] < times[Opener(times, n, window)] + window
    ensures Opener(times, Opener(times, n, window), window) == Opener(times, n, window)
  {
    if n > 0 { OpenerWindow(times, n - 1, window); }
  }

  /** From one call to a later one the opener stays, or moves past the first call, to a time after its window. */
  lemma {:induction false} OpenerMoves(times: seq<int>, p: nat, n: nat, window: int)
    requires p <= n < |times| && window > 0 && Monotone(times)
    ensures var o, o' := Opener(times, p, window), Opener(times, n, window);
      o' == o || (p < o' && times[o] + window <= times[o'])
    decreases n - p
  {
    if p < n {
      OpenerMoves(times, p, n - 1, window);
      OpenerWindow(times, p, window);
      assert times[Opener(times, p, window)] <= times[p];
    }
  }

  lemma {:induction false} Fits(s: set<nat>, a: nat, n: nat)
    requires forall i :: i in s ==> a <= i < a + n
    ensures |s| <= n
    decreases n
  {
    if n > 0 {
      Fits(s - {a + n - 1}, a, n - 1);
      assert s <= (s - {a + n - 1}) + {a + n - 1};
    } else {
      assert s == {};
    }
  }

  /** The admitted calls with times from `from` up to one window length later. */
  ghost function Burst(times: seq<int>, limit: int, window: int, from: int): set<nat> {
    set n: nat | n < |times| && from <= times[n] < from + window && Admitted(times, n, limit, window)
  }

  /** An admitted call is among the first `limit` calls after its opener. */
  lemma AdmittedSoon(times: seq<int>, n: nat, limit: int, window: int)
    requires n < |times| && limit > 0 && window > 0 && Admitted(times, n, limit, window)
    ensures var o := Opener(times, n, window); o <= n < o + limit
  {
    WindowIsOpeners(times, n, limit, window);
  }

  /** Calls of the burst have the first call's opener or one common later opener. */
  lemma TwoOpeners(times: seq<int>, window: int, from: int, p: nat, a: nat, b: nat)
    requires window > 0 && Monotone(times) && p <= a <= b < |times|
    requires from <= times[p] && times[b] < from + window
    ensures var o := Opener(times, p, window);
      Opener(times, a, window) == o || Opener(times, b, window) == Opener(times, a, window)
  {
    OpenerMoves(times, p, a, window);
    OpenerMoves(times, a, b, window);
    var o1, o2 := Opener(times, a, window), Opener(times, b, window);
    assert p < o1 ==> times[p] <= times[o1];
    assert times[o2] <= times[b];
  }

  /** If the burst reaches into a second window, the call that opened the first came before the burst. */
  lemma FirstOpenerEarlier(times: seq<int>, window: int, from: int, p: nat, b: nat)
    requires window > 0 && Monotone(times) && p <= b < |times| && times[b] < from + window
    requires Opener(times, b, window) != Opener(times, p, window)
    ensures times[Opener(times, p, window)] < from
  {
    OpenerMoves(times, p, b, window);
    assert times[Opener(times, b, window)] <= times[b];
  }

  /** The burst has no more calls in the first call's window than the limit. */
  lemma BurstInOneWindow(times: seq<int>, limit: int, window: int, calls: set<nat>, o: nat)
    requires limit > 0 && window > 0
    requires forall n :: n in calls ==>
      n < |times| && Admitted(times, n, limit, window) && Opener(times, n, window) == o
    ensures |calls| <= limit
    ensures (forall n :: n in calls ==> o < n) ==> |calls| < limit
  {
    forall n | n in calls ensures o <= n < o + limit {
      AdmittedSoon(times, n, limit, window);
    }
    Fits(calls, o, limit);
    if forall n :: n in calls ==> o < n {
      Fits(calls, o + 1, limit - 1);
    }
  }

  /** A burst that reaches into a second window has fewer calls in the first than the limit, and none in a third. */
  lemma BurstInTwoWindows(times: seq<int>, limit: int, window: int, from: int, p: nat, q: nat,
                          first: set<nat>, rest: set<nat>)
    requires limit > 0 && window > 0 && Monotone(times) && p <= q < |times|
    requires from <= times[p] && times[q] < from + window && Opener(times, q, window) != Opener(times, p, window)
    requires forall n :: n in first + rest ==>
      p <= n < |times| && times[n] < from + window && Admitted(times, n, limit, window)
    requires forall n :: n in first ==> Opener(times, n, window) == Opener(times, p, window)
    requires forall n :: n in rest ==> q <= n && Opener(times, n, window) != Opener(times, p, window)
    ensures |first| + |rest| <= 2 * limit - 1
  {
    FirstOpenerEarlier(times, window, from, p, q);
    forall n | n in rest ensures Opener(times, n, window) == Opener(times, q, window) {
      TwoOpeners(times, window, from, p, q, n);
    }
    BurstInOneWindow(times, limit, window, first, Opener(times, p, window));
    BurstInOneWindow(times, limit, window, rest, Opener(times, q, window));
  }

  /** Any half-open interval of one window length admits fewer than twice the limit. */
  lemma BurstBound(times: seq<int>, limit: int, window: int, from: int)
    requires limit > 0 && window > 0 && Monotone(times)
    ensures |Burst(times, limit, window, from)| <= 2 * limit - 1
  {
    var burst := Burst(times, limit, window, from);
    if burst != {} {
      var p := Earliest(burst);
      var o := Opener(times, p, window);
      var first := set n | n in burst && Opener(times, n, window) == o;
      var rest := set n | n in burst && Opener(times, n, window) != o;
      assert first + rest == burst && first * rest == {};
      if rest == {} {
        assert first == burst;
        BurstInOneWindow(times, limit, window, burst, o);
      } else {
        var q := Earliest(rest);
        BurstInTwoWindows(times, limit, window, from, p, q, first, rest);
      }
    }
  }

  lemma {:induction false} Earliest(s: set<nat>) returns (m: nat)
    requires s != {}
    ensures m in s && forall n :: n in s ==> m <= n
    decreases |s|
  {
    var x: nat :| x in s;
    if s == {x} {
      m := x;
    } else {
      var y := Earliest(s - {x});
      m := if x < y then x else y;
      forall n | n in s ensures m <= n { assert n == x || n in s - {x}; }
    }
  }

  // ---------- The limiter makes these decisions ----------

  datatype Call = Call(key: Key, limit: int, window: int, now: int)

  /** The times of the calls for one key. */
  function TimesOf(calls: seq<Call>, key: Key): seq<int> {
    if calls == [] then []
    else TimesOf(calls[..|calls| - 1], key) + if calls[|calls| - 1].key == key then [calls[|calls| - 1].now] else []
  }

  lemma SeenLater(st: State, key: Key, now: int, later: int)
    requires now <= later
    ensures WindowOf(st, key, later) == Seen(WindowOf(st, key, now), later)
  {
  }

  lemma {:induction false} WindowAfterPrefix(times: seq<int>, t: int, n: nat, limit: int, window: int)
    requires n <= |times|
    ensures WindowAfter(times + [t], n, limit, window) == WindowAfter(times, n, limit, window)
  {
    if n > 0 { WindowAfterPrefix(times, t, n - 1, limit, window); }
  }

  /** Calls for any keys in any order: the calls for `key` are decided as its own times alone decide. */
  method Drive(limiter: MemoryLimiter, calls: seq<Call>, key: Key, limit: int, window: int) returns (allowed: seq<bool>)
    requires limiter.Valid() && limiter.Contents() == State(map[], map[]) && limit > 0 && window > 0
    requires forall i, j :: 0 <= i < j < |calls| ==> calls[i].now <= calls[j].now
    requires forall i :: 0 <= i < |calls| && calls[i].key == key ==>
      calls[i].limit == limit && calls[i].window == window
    modifies limiter
    ensures |allowed| == |TimesOf(calls, key)|
    ensures forall n :: 0 <= n < |allowed| ==> allowed[n] == Admitted(TimesOf(calls, key), n, limit, window)
  {
    allowed := [];
    ghost var times: seq<int> := [];
    for i := 0 to |calls|
      invariant limiter.Valid() && times == TimesOf(calls[..i], key) && |allowed| == |times|
      invariant forall n :: 0 <= n < |allowed| ==> allowed[n] == Admitted(times, n, limit, window)
      invariant i < |calls| ==>
        WindowOf(limiter.Contents(), key, calls[i].now) ==
          Seen(WindowAfter(times, |times|, limit, window), calls[i].now)
    {
      var c := calls[i];
      assert calls[..i + 1][..i] == calls[..i];
      ghost var before := WindowAfter(times, |times|, limit, window);
      var d := limiter.Allow(c.key, c.limit, c.window, c.now);
      if c.key == key {
        Extend(times, c.now, allowed, limit, window);
        allowed := allowed + [d.allowed];
        times := times + [c.now];
      }
      assert WindowOf(limiter.Contents(), key, c.now) == Seen(WindowAfter(times, |times|, limit, window), c.now);
      if i + 1 < |calls| {
        SeenLater(limiter.Contents(), key, c.now, calls[i + 1].now);
      }
    }
    assert calls[..|calls|] == calls;
  }

  lemma Extend(times: seq<int>, t: int, allowed: seq<bool>, limit: int, window: int)
    requires limit > 0 && window > 0 && |allowed| == |times|
    requires forall n :: 0 <= n < |allowed| ==> allowed[n] == Admitted(times, n, limit, window)
    ensures forall n :: 0 <= n < |allowed| ==> allowed[n] == Admitted(times + [t], n, limit, window)
    ensures var w := Counted(Seen(WindowAfter(times, |times|, limit, window), t), limit, window, t);
      && WindowAfter(times + [t], |times| + 1, limit, window) == w
      && w.Open? && Admitted(times + [t], |times|, limit, window) == (w.count <= limit)
  {
    forall n: nat | n <= |times| { WindowAfterPrefix(times, t, n, limit, window); }
  }

  // ---------- The bound is met ----------

  /** One call opens a window, the rest of the limit comes at its end, and the whole limit right after it. */
  function Crowded(limit: nat, window: int): seq<int> {
    seq(2 * limit, n requires 0 <= n => if n == 0 then 0 else if n < limit then window - 1 else window)
  }

  lemma {:induction false} CrowdedOpener(limit: nat, window: int, n: nat)
    requires limit > 0 && window >= 2 && n < 2 * limit
    ensures Opener(Crowded(limit, window), n, window) == if n < limit then 0 else limit
  {
    if n > 0 { CrowdedOpener(limit, window, n - 1); }
  }

  lemma CrowdedAdmitted(limit: nat, window: int, n: nat)
    requires limit > 0 && window >= 2 && n < 2 * limit
    ensures Admitted(Crowded(limit, window), n, limit, window)
  {
    CrowdedOpener(limit, window, n);
    WindowIsOpeners(Crowded(limit, window), n, limit, window);
  }

  lemma {:induction false} Interval(s: set<nat>, n: nat)
    requires forall i: nat :: i in s <==> 1 <= i <= n
    ensures |s| == n
    decreases n
  {
    if n == 0 {
      assert s == {};
    } else {
      Interval(s - {n}, n - 1);
      assert s == (s - {n}) + {n};
    }
  }

  /** For every limit, and every window of at least two ticks, some calls use the bound up. */
  lemma BoundIsTight(limit: nat, window: int)
    requires limit > 0 && window >= 2
    ensures Monotone(Crowded(limit, window))
    ensures |Burst(Crowded(limit, window), limit, window, window - 1)| == 2 * limit - 1
  {
    var times := Crowded(limit, window);
    var burst := Burst(times, limit, window, window - 1);
    forall n: nat ensures n in burst <==> 1 <= n <= 2 * limit - 1 {
      if n < 2 * limit { CrowdedAdmitted(limit, window, n); }
    }
    Interval(burst, 2 * limit - 1);
  }
}
