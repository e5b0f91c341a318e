/**
 The weighted cursor of the priority queue (`internal/queue/priority.go`).

 `Dequeue` is the code.  What a try at a sub-queue answers is up to the environment.  With
 three backlogged sub-queues six calls serve them 3, 2 and 1 times.  With exactly two, one of them is
 never served again: the cursor moves while the loop index keeps counting.
 */
module PriorityQueues {
  /** What a sub-queue answers to a try: a message, no message, or another error. */
  datatype Reply = HasMessage | IsEmpty | IsBroken

  /** How a call ends: with nothing yet, with a message, or with a sub-queue's error. */
  datatype Got = Nothing | Message(q: nat) | Failure(q: nat)

  /** high, normal, low. */
  const QUEUES: nat := 3

  function Weight(q: nat): nat {
    if q == 0 then 3 else if q == 1 then 2 else 1
  }

  /** `(pos + i) % 3`. */
  function At(pos: nat, i: nat): (q: nat)
    ensures q < QUEUES
    ensures pos < QUEUES && i < QUEUES ==> q == if pos + i < QUEUES then pos + i else pos + i - QUEUES
  {
    (pos + i) % QUEUES
  }

  /** The cursor, the sub-queues tried so far, and what came of it. */
  datatype Scan = Scan(pos: nat, count: nat, tried: seq<nat>, got: Got)

  /** One pass of the inner loop; `ask(n, q)` is the answer to try number `n`, at sub-queue `q`. */
  function Slot(x: Scan, i: nat, ask: (nat, nat) -> Reply): Scan {
    var q := At(x.pos, i);
    if x.pos == q && x.count >= Weight(q) then Scan(At(q, 1), 0, x.tried, Nothing)
    else
      match ask(|x.tried|, q)
      case HasMessage => Scan(q, if x.pos == q then x.count + 1 else 1, x.tried + [q], Message(q))
      case IsBroken => Scan(x.pos, x.count, x.tried + [q], Failure(q))
      case IsEmpty =>
        if x.pos == q then Scan(At(q, 1), 0, x.tried + [q], Nothing) else Scan(x.pos, x.count, x.tried + [q], Nothing)
  }

  function Round(x: Scan, i: nat, ask: (nat, nat) -> Reply): Scan
    decreases QUEUES - i
  {
    if i >= QUEUES || !x.got.Nothing? then x else Round(Slot(x, i, ask), i + 1, ask)
  }

  function Rounds(x: Scan, n: nat, ask: (nat, nat) -> Reply): Scan
    decreases n
  {
    if n == 0 || !x.got.Nothing? then x else Rounds(Round(x, 0, ask), n - 1, ask)
  }

  lemma RoundsStep(x: Scan, n: nat, ask: (nat, nat) -> Reply)
    requires n > 0 && x.got.Nothing?
    ensures Rounds(x, n, ask) == Rounds(Round(x, 0, ask), n - 1, ask)
  {
  }

  lemma RoundsEnd(x: Scan, n: nat, ask: (nat, nat) -> Reply)
    requires n == 0 || !x.got.Nothing?
    ensures Rounds(x, n, ask) == x
  {
  }

  class PriorityQueue {
    var pos: nat
    var count: nat

    constructor ()
      ensures pos == 0 && count == 0
    {
      pos, count := 0, 0;
    }

    /** One pass of the inner loop. */
    method TrySlot(i: nat, tries: nat, ask: (nat, nat) -> Reply, ghost tried: seq<nat>)
      returns (got: Got, tries': nat, ghost tried': seq<nat>)
      requires tries == |tried|
      modifies this
      ensures tries' == |tried'|
        && Scan(pos, count, tried', got) == Slot(Scan(old(pos), old(count), tried, Nothing), i, ask)
    {
      got, tries', tried' := Nothing, tries, tried;
      var q := At(pos, i);
      if pos == q && count >= Weight(q) {
        pos, count := At(q, 1), 0;
        return;
      }
      var reply := ask(tries, q);
      tries', tried' := tries + 1, tried + [q];
      match reply {
        case HasMessage =>
          if pos == q {
            count := count + 1;
          } else {
            pos, count := q, 1;
          }
          got := Message(q);
        case IsBroken =>
          got := Failure(q);
        case IsEmpty =>
          if pos == q {
            pos, count := At(q, 1), 0;
          }
      }
    }

    method TryRound(tries: nat, ask: (nat, nat) -> Reply, ghost tried: seq<nat>)
      returns (got: Got, tries': nat, ghost tried': seq<nat>)
      requires tries == |tried|
      modifies this
      ensures tries' == |tried'|
        && Scan(pos, count, tried', got) == Round(Scan(old(pos), old(count), tried, Nothing), 0, ask)
    {
      got, tries', tried' := Nothing, tries, tried;
      ghost var end := Round(Scan(pos, count, tried, Nothing), 0, ask);
      var i := 0;
      while i < QUEUES && got.Nothing?
        invariant i <= QUEUES && tries' == |tried'| && Round(Scan(pos, count, tried', got), i, ask) == end
      {
        hide Slot;
        got, tries', tried' := TrySlot(i, tries', ask, tried');
        i := i + 1;
      }
    }

    /** `rounds` is how many rounds fit before the deadline. */
    method Dequeue(rounds: nat, ask: (nat, nat) -> Reply) returns (got: Got, ghost tried: seq<nat>)
      modifies this
      ensures Scan(pos, count, tried, got) == Rounds(Scan(old(pos), old(count), [], Nothing), rounds, ask)
    {
      var tries := 0;
      got, tried := Nothing, [];
      ghost var x := Scan(pos, count, tried, got);
      ghost var end := Rounds(x, rounds, ask);
      hide *;
      var round := 0;
      while round < rounds && got.Nothing?
        invariant round <= rounds && tries == |tried|
        invariant x == Scan(pos, count, tried, got) && Rounds(x, rounds - round, ask) == end
      {
        RoundsStep(x, rounds - round, ask);
        got, tries, tried := TryRound(tries, ask, tried);
        x := Scan(pos, count, tried, got);
        round := round + 1;
      }
      RoundsEnd(x, rounds - round, ask);
    }
  }

  // ---------- Cursors ----------

  /** The cursors that calls can leave behind. */
  predicate Reachable(pos: nat, count: nat) {
    pos < QUEUES && count <= Weight(pos)
  }

  lemma SlotReachable(x: Scan, i: nat, ask: (nat, nat) -> Reply)
    requires Reachable(x.pos, x.count) && i < QUEUES
    ensures Reachable(Slot(x, i, ask).pos, Slot(x, i, ask).count)
  {
  }

  lemma {:induction false} RoundReachable(x: Scan, i: nat, ask: (nat, nat) -> Reply)
    requires Reachable(x.pos, x.count)
    ensures Reachable(Round(x, i, ask).pos, Round(x, i, ask).count)
    decreases QUEUES - i
  {
    if i < QUEUES && x.got.Nothing? {
      SlotReachable(x, i, ask);
      RoundReachable(Slot(x, i, ask), i + 1, ask);
    }
  }

  lemma {:induction false} RoundsReachable(x: Scan, n: nat, ask: (nat, nat) -> Reply)
    requires Reachable(x.pos, x.count)
    ensures Reachable(Rounds(x, n, ask).pos, Rounds(x, n, ask).count)
    decreases n
  {
    if n > 0 && x.got.Nothing? {
      RoundReachable(x, 0, ask);
      RoundsReachable(Round(x, 0, ask), n - 1, ask);
    }
  }

  /** The sub-queues in `busy` hold messages, the others do not. */
  function Holding(busy: set<nat>): (nat, nat) -> Reply {
    (n: nat, q: nat) => if q in busy then HasMessage else IsEmpty
  }

  /** The first round of a call. */
  function Serve(pos: nat, count: nat, busy: set<nat>): Scan {
    Round(Scan(pos, count, [], Nothing), 0, Holding(busy))
  }

  /** A call with time for `rounds` rounds. */
  function Call(pos: nat, count: nat, busy: set<nat>, rounds: nat): Scan {
    Rounds(Scan(pos, count, [], Nothing), rounds, Holding(busy))
  }

  /** When the first round gets a message, the number of rounds there is time for does not matter. */
  lemma CallServes(pos: nat, count: nat, busy: set<nat>, rounds: nat)
    requires rounds > 0 && !Serve(pos, count, busy).got.Nothing?
    ensures Call(pos, count, busy, rounds) == Serve(pos, count, busy)
  {
    RoundsStep(Scan(pos, count, [], Nothing), rounds, Holding(busy));
    RoundsEnd(Serve(pos, count, busy), rounds - 1, Holding(busy));
    hide Round, Rounds;
  }

  /** Every call has time for a round. */
  ghost predicate Timely(rounds: seq<nat>) {
    forall i :: 0 <= i < |rounds| ==> rounds[i] > 0
  }

  /** What calls in a row get, the call number `i` with time for `rounds[i]` rounds. */
  function Served(pos: nat, count: nat, busy: set<nat>, rounds: seq<nat>): seq<Got>
    decreases |rounds|
  {
    if rounds == [] then []
    else var x := Call(pos, count, busy, rounds[0]); [x.got] + Served(x.pos, x.count, busy, rounds[1..])
  }

  /** What the first round finds when it is written out, slot by slot. */
  lemma ServeUnrolled(pos: nat, count: nat, busy: set<nat>)
    requires Reachable(pos, count)
    ensures var a := Slot(Scan(pos, count, [], Nothing), 0, Holding(busy));
      var b := if !a.got.Nothing? then a else Slot(a, 1, Holding(busy));
      var c := if !b.got.Nothing? then b else Slot(b, 2, Holding(busy));
      Serve(pos, count, busy) == c
  {
  }

  // ---------- Three backlogged sub-queues ----------

  const ALL: set<nat> := {0, 1, 2}

  /** The order of service: a used-up quota passes over the next sub-queue. */
  function Cycle(k: nat): nat {
    if k <= 2 then 0 else if k == 3 then 2 else 1
  }

  function Inc(k: nat): nat {
    if k >= 5 then 0 else k + 1
  }

  /** The place in the cycle that a cursor stands before. */
  function Phase(pos: nat, count: nat): nat {
    if pos == 0 then count else if pos == 2 then 3 + count else if count == 2 then 0 else 4 + count
  }

  lemma ServeAll(pos: nat, count: nat)
    requires Reachable(pos, count)
    ensures var x := Serve(pos, count, ALL);
      x.got == Message(Cycle(Phase(pos, count))) && Reachable(x.pos, x.count)
        && Phase(x.pos, x.count) == Inc(Phase(pos, count))
  {
    ServeUnrolled(pos, count, ALL);
  }

  function Around(k: nat, n: nat): seq<Got>
    decreases n
  {
    if n == 0 then [] else [Message(Cycle(k))] + Around(Inc(k), n - 1)
  }

  /** Backlogged sub-queues are served around the cycle. */
  lemma {:induction false} ServedAround(pos: nat, count: nat, rounds: seq<nat>)
    requires Reachable(pos, count) && Timely(rounds)
    ensures Served(pos, count, ALL, rounds) == Around(Phase(pos, count), |rounds|)
    decreases |rounds|
  {
    if rounds != [] {
      ServeAll(pos, count);
      CallServes(pos, count, ALL, rounds[0]);
      hide Serve, Call, Phase, Cycle, Inc;
      ServedAround(Serve(pos, count, ALL).pos, Serve(pos, count, ALL).count, rounds[1..]);
    }
  }

  /** How often a sub-queue was served. */
  function CountOf(s: seq<Got>, q: nat): nat {
    if s == [] then 0 else (if s[0] == Message(q) then 1 else 0) + CountOf(s[1..], q)
  }

  function CountAround(k: nat, n: nat, q: nat): nat
    decreases n
  {
    if n == 0 then 0 else (if Cycle(k) == q then 1 else 0) + CountAround(Inc(k), n - 1, q)
  }

  lemma {:induction false} CountsAround(k: nat, n: nat, q: nat)
    ensures CountOf(Around(k, n), q) == CountAround(k, n, q)
    decreases n
  {
    if n > 0 {
      CountsAround(Inc(k), n - 1, q);
      assert ([Message(Cycle(k))] + Around(Inc(k), n - 1))[1..] == Around(Inc(k), n - 1);
    }
  }

  lemma CountMore(k: nat, n: nat, q: nat)
    ensures CountAround(k, n + 1, q) == (if Cycle(k) == q then 1 else 0) + CountAround(Inc(k), n, q)
    ensures CountAround(k, 0, q) == 0
  {
  }

  lemma CountTurn(k: nat, q: nat)
    requires k < 6
    ensures CountAround(k, 6, q) == (if q == 0 then 3 else 0) + (if q == 2 then 1 else 0) + (if q == 1 then 2 else 0)
  {
    var k1 := Inc(k);
    var k2 := Inc(k1);
    var k3 := Inc(k2);
    var k4 := Inc(k3);
    var k5 := Inc(k4);
    CountMore(k, 5, q);
    CountMore(k1, 4, q);
    CountMore(k2, 3, q);
    CountMore(k3, 2, q);
    CountMore(k4, 1, q);
    CountMore(k5, 0, q);
    hide CountAround;
  }

  /** Every turn of the cycle has the weights, wherever it begins. */
  lemma OneTurn(k: nat)
    requires k < 6
    ensures CountAround(k, 6, 0) == 3 && CountAround(k, 6, 1) == 2 && CountAround(k, 6, 2) == 1
  {
    hide *;
    CountTurn(k, 0);
    CountTurn(k, 1);
    CountTurn(k, 2);
  }

  /** From any cursor, any six calls in a row serve high three times, normal twice and low once. */
  lemma SixInARow(pos: nat, count: nat, rounds: seq<nat>)
    requires Reachable(pos, count) && |rounds| == 6 && Timely(rounds)
    ensures var s := Served(pos, count, ALL, rounds); CountOf(s, 0) == 3 && CountOf(s, 1) == 2 && CountOf(s, 2) == 1
  {
    var k := Phase(pos, count);
    ServedAround(pos, count, rounds);
    CountsAround(k, 6, 0);
    CountsAround(k, 6, 1);
    CountsAround(k, 6, 2);
    OneTurn(k);
    hide Served, CountOf, Around, CountAround;
  }

  // ---------- Exactly two backlogged sub-queues ----------

  /** Of two backlogged sub-queues, the one that ends up being served alone. */
  function Winner(busy: set<nat>): nat {
    if busy == {0, 1} then 0 else if busy == {0, 2} then 2 else 1
  }

  predicate IsPair(busy: set<nat>) {
    busy == {0, 1} || busy == {0, 2} || busy == {1, 2}
  }

  /** Once the cursor stands on the winner it stays there, and the winner is served. */
  lemma WinnerStays(count: nat, busy: set<nat>)
    requires IsPair(busy) && Reachable(Winner(busy), count)
    ensures var x := Serve(Winner(busy), count, busy);
      x.got == Message(Winner(busy)) && x.pos == Winner(busy) && Reachable(x.pos, x.count)
  {
    ServeUnrolled(Winner(busy), count, busy);
  }

  /** The next cursor when two sub-queues are backlogged: leaving a sub-queue, the next one is passed over. */
  function NextOfTwo(pos: nat, count: nat, busy: set<nat>): (nat, nat) {
    if pos in busy && count < Weight(pos) then (pos, count + 1)
    else if At(pos, 2) in busy then (At(pos, 2), 1)
    else (pos, 1)
  }

  lemma ServeTwo(pos: nat, count: nat, busy: set<nat>)
    requires IsPair(busy) && Reachable(pos, count)
    ensures var x := Serve(pos, count, busy);
      (x.pos, x.count) == NextOfTwo(pos, count, busy) && x.got == Message(x.pos) && Reachable(x.pos, x.count)
  {
    ServeUnrolled(pos, count, busy);
  }

  /** The cursor after calls in a row. */
  function After(pos: nat, count: nat, busy: set<nat>, rounds: seq<nat>): (nat, nat)
    decreases |rounds|
  {
    if rounds == [] then (pos, count)
    else var x := Call(pos, count, busy, rounds[0]); After(x.pos, x.count, busy, rounds[1..])
  }

  /** How many calls at most until the winner is reached. */
  function Distance(pos: nat, count: nat, busy: set<nat>): nat {
    if pos == Winner(busy) then 0
    else if pos in busy then Weight(pos) + 1 - (if count <= Weight(pos) then count else Weight(pos))
    else if At(pos, 2) == Winner(busy) then 1 else 1 + Weight(At(pos, 2))
  }

  /** Every call that does not serve the winner brings it closer. */
  lemma DistanceFalls(pos: nat, count: nat, busy: set<nat>)
    requires IsPair(busy) && Reachable(pos, count)
    ensures Distance(pos, count, busy) <= 4
    ensures var x := Serve(pos, count, busy);
      Reachable(x.pos, x.count) && x.got == Message(x.pos)
      && (pos == Winner(busy) ==> x.pos == Winner(busy))
      && (pos != Winner(busy) ==> Distance(x.pos, x.count, busy) < Distance(pos, count, busy))
  {
    ServeTwo(pos, count, busy);
    hide Serve;
  }

  /** From any cursor the winner is reached, within four calls, and then kept. */
  lemma {:induction false} WinnerReached(pos: nat, count: nat, busy: set<nat>, rounds: seq<nat>)
    requires IsPair(busy) && Reachable(pos, count) && Timely(rounds) && |rounds| >= Distance(pos, count, busy)
    ensures Distance(pos, count, busy) <= 4
    ensures var (p, c) := After(pos, count, busy, rounds); p == Winner(busy) && Reachable(p, c)
    decreases |rounds|
  {
    DistanceFalls(pos, count, busy);
    if rounds != [] {
      var x := Serve(pos, count, busy);
      CallServes(pos, count, busy, rounds[0]);
      if pos == Winner(busy) { DistanceZero(x.count, busy); }
      hide Serve, Call, Distance, Winner;
      WinnerReached(x.pos, x.count, busy, rounds[1..]);
    }
  }

  lemma DistanceZero(count: nat, busy: set<nat>)
    ensures Distance(Winner(busy), count, busy) == 0
  {
  }

  /** With exactly two backlogged sub-queues one starves: once on the winner, every call serves the winner. */
  lemma {:induction false} OtherStarves(count: nat, busy: set<nat>, rounds: seq<nat>)
    requires IsPair(busy) && Reachable(Winner(busy), count) && Timely(rounds)
    ensures |Served(Winner(busy), count, busy, rounds)| == |rounds|
    ensures forall i :: 0 <= i < |rounds| ==> Served(Winner(busy), count, busy, rounds)[i] == Message(Winner(busy))
    decreases |rounds|
  {
    if rounds != [] {
      WinnerStays(count, busy);
      CallServes(Winner(busy), count, busy, rounds[0]);
      hide Serve, Call, Winner;
      OtherStarves(Serve(Winner(busy), count, busy).count, busy, rounds[1..]);
    }
  }

  // ---------- One backlogged sub-queue ----------

  /** A round that misses the only message leaves the cursor on it. */
  lemma LoneRound(x: Scan, q: nat)
    requires Reachable(x.pos, x.count) && x.got.Nothing? && q < QUEUES
    ensures var y := Round(x, 0, Holding({q}));
      y.got == Message(q) || (y.got.Nothing? && x.pos != q && y.pos == q && y.count == 0)
  {
    var a := Slot(x, 0, Holding({q}));
    var b := if a.got.Nothing? then Slot(a, 1, Holding({q})) else a;
    var c := if b.got.Nothing? then Slot(b, 2, Holding({q})) else b;
    assert Round(x, 0, Holding({q})) == c;
  }

  /** The only message is got, unless the call had time for one round and missed it; then the cursor is on it. */
  lemma LoneServed(pos: nat, count: nat, q: nat, rounds: nat)
    requires Reachable(pos, count) && q < QUEUES && rounds > 0
    ensures var x := Call(pos, count, {q}, rounds);
      x.got == Message(q) || (x.got.Nothing? && rounds == 1 && pos != q && x.pos == q && x.count == 0)
  {
    var x := Scan(pos, count, [], Nothing);
    var y := Round(x, 0, Holding({q}));
    LoneRound(x, q);
    RoundsStep(x, rounds, Holding({q}));
    if rounds == 1 || y.got == Message(q) {
      RoundsEnd(y, rounds - 1, Holding({q}));
    } else {
      LoneRound(y, q);
      RoundsStep(y, rounds - 1, Holding({q}));
      RoundsEnd(Round(y, 0, Holding({q})), rounds - 2, Holding({q}));
    }
    hide Round, Rounds;
  }

  // ---------- When nothing starves ----------

  /** From every cursor, any `n` calls in a row serve the sub-queue. */
  ghost predicate ServedWithin(busy: set<nat>, q: nat, n: nat) {
    forall pos, count, rounds :: Reachable(pos, count) && |rounds| == n && Timely(rounds) ==>
      Message(q) in Served(pos, count, busy, rounds)
  }

  ghost predicate FairWithin(busy: set<nat>, n: nat) {
    forall q :: q in busy ==> ServedWithin(busy, q, n)
  }

  lemma {:induction false} CountedServed(s: seq<Got>, q: nat)
    requires CountOf(s, q) > 0
    ensures Message(q) in s
  {
    if s[0] != Message(q) {
      CountedServed(s[1..], q);
      assert s == [s[0]] + s[1..];
    }
  }

  lemma AllServed(q: nat)
    requires q in ALL
    ensures ServedWithin(ALL, q, 6)
  {
    forall pos, count, rounds | Reachable(pos, count) && |rounds| == 6 && Timely(rounds)
      ensures Message(q) in Served(pos, count, ALL, rounds)
    {
      hide Served, CountOf;
      SixInARow(pos, count, rounds);
      CountedServed(Served(pos, count, ALL, rounds), q);
    }
  }

  lemma ServedFirst(pos: nat, count: nat, busy: set<nat>, rounds: seq<nat>)
    requires rounds != []
    ensures var x := Call(pos, count, busy, rounds[0]);
      Served(pos, count, busy, rounds) == [x.got] + Served(x.pos, x.count, busy, rounds[1..])
  {
  }

  lemma LoneSoon(q: nat, n: nat)
    requires q < QUEUES && n >= 2
    ensures ServedWithin({q}, q, n)
  {
    forall pos, count, rounds | Reachable(pos, count) && |rounds| == n && Timely(rounds)
      ensures Message(q) in Served(pos, count, {q}, rounds)
    {
      hide Served, Call;
      var x := Call(pos, count, {q}, rounds[0]);
      LoneServed(pos, count, q, rounds[0]);
      ServedFirst(pos, count, {q}, rounds);
      if x.got != Message(q) {
        LoneServed(x.pos, x.count, q, rounds[1]);
        ServedFirst(x.pos, x.count, {q}, rounds[1..]);
      }
    }
  }

  lemma {:induction false} WinnerServed(pos: nat, count: nat, busy: set<nat>, rounds: seq<nat>)
    requires IsPair(busy) && Reachable(pos, count) && Timely(rounds) && |rounds| > Distance(pos, count, busy)
    ensures Message(Winner(busy)) in Served(pos, count, busy, rounds)
    decreases |rounds|
  {
    var x := Serve(pos, count, busy);
    DistanceFalls(pos, count, busy);
    CallServes(pos, count, busy, rounds[0]);
    ServedFirst(pos, count, busy, rounds);
    hide Serve, Call, Served, Distance, Winner;
    if pos != Winner(busy) {
      WinnerServed(x.pos, x.count, busy, rounds[1..]);
    }
  }

  lemma PairServesWinner(busy: set<nat>)
    requires IsPair(busy)
    ensures ServedWithin(busy, Winner(busy), 6)
  {
    forall pos, count, rounds | Reachable(pos, count) && |rounds| == 6 && Timely(rounds)
      ensures Message(Winner(busy)) in Served(pos, count, busy, rounds)
    {
      hide Served, Winner, Distance;
      DistanceFalls(pos, count, busy);
      WinnerServed(pos, count, busy, rounds);
    }
  }

  lemma PairStarvesOther(busy: set<nat>, q: nat, n: nat)
    requires IsPair(busy) && q != Winner(busy)
    ensures !ServedWithin(busy, q, n)
  {
    var rounds := seq(n, i => 1);
    OtherStarves(0, busy, rounds);
    assert Reachable(Winner(busy), 0);
    hide Served, Winner;
    assert Message(q) !in Served(Winner(busy), 0, busy, rounds);
  }

  lemma Lone(busy: set<nat>, q: nat)
    requires busy <= ALL && busy != ALL && q in busy && !IsPair(busy)
    ensures q < QUEUES && busy == {q}
  {
    assert 0 in busy && 1 in busy && 2 in busy ==> busy == ALL;
    assert 0 in busy && 1 in busy && 2 !in busy ==> busy == {0, 1};
    assert 0 in busy && 1 !in busy && 2 in busy ==> busy == {0, 2};
    assert 0 !in busy && 1 in busy && 2 in busy ==> busy == {1, 2};
  }

  /** A backlogged sub-queue starves exactly when one other is backlogged and wins; otherwise six calls serve it. */
  lemma ServedIff(busy: set<nat>, q: nat)
    requires busy <= ALL && q in busy
    ensures ServedWithin(busy, q, 6) <==> !IsPair(busy) || q == Winner(busy)
    ensures (exists n: nat :: ServedWithin(busy, q, n)) <==> !IsPair(busy) || q == Winner(busy)
  {
    hide ServedWithin, Winner;
    if !IsPair(busy) {
      if busy == ALL {
        AllServed(q);
      } else {
        Lone(busy, q);
        LoneSoon(q, 6);
      }
    } else if q == Winner(busy) {
      PairServesWinner(busy);
    } else {
      forall n: nat ensures !ServedWithin(busy, q, n) { PairStarvesOther(busy, q, n); }
    }
  }

  /** All backlogged sub-queues are served, and then within six calls, exactly when they are not two. */
  lemma FairIff(busy: set<nat>)
    requires busy <= ALL
    ensures FairWithin(busy, 6) <==> !IsPair(busy)
    ensures (exists n: nat :: FairWithin(busy, n)) <==> !IsPair(busy)
  {
    if IsPair(busy) {
      var loser :| loser in busy && loser != Winner(busy);
      forall n: nat ensures !FairWithin(busy, n) { PairStarvesOther(busy, loser, n); }
    }
    forall q | q in busy && !IsPair(busy) ensures ServedWithin(busy, q, 6) { ServedIff(busy, q); }
    hide ServedWithin, Winner;
    assert !IsPair(busy) ==> FairWithin(busy, 6);
  }

  // ---------- No message ----------

  lemma RoundUnrolled(x: Scan, ask: (nat, nat) -> Reply)
    requires x.got.Nothing? && Round(x, 0, ask).got.Nothing?
    ensures var a := Slot(x, 0, ask);
      var b := Slot(a, 1, ask);
      a.got.Nothing? && b.got.Nothing? && Round(x, 0, ask) == Slot(b, 2, ask)
  {
    var a := Slot(x, 0, ask);
    var b := Slot(a, 1, ask);
    var c := Slot(b, 2, ask);
    hide Slot;
    assert Round(x, 0, ask) == Round(a, 1, ask);
    assert a.got.Nothing? ==> Round(a, 1, ask) == Round(b, 2, ask);
    assert b.got.Nothing? ==> Round(b, 2, ask) == Round(c, 3, ask) == c;
  }

  /**
   A round without a message tries the cursor's sub-queue and the one before it, never the one after, and
   moves the cursor there.
   */
  lemma FailingRound(x: Scan, ask: (nat, nat) -> Reply)
    requires Reachable(x.pos, x.count) && x.got.Nothing? && Round(x, 0, ask).got.Nothing?
    ensures Round(x, 0, ask) == Scan(At(x.pos, 1), 0, (FirstTry(x) + [At(x.pos, 2)]) + [x.pos], Nothing)
  {
    RoundUnrolled(x, ask);
    hide Round;
    var a := Slot(x, 0, ask);
    assert a == Scan(At(x.pos, 1), 0, FirstTry(x), Nothing);
    ThreeQueues(x.pos, 0);
    var b := Slot(a, 1, ask);
    hide FirstTry;
    assert b == Scan(At(x.pos, 1), 0, FirstTry(x) + [At(x.pos, 2)], Nothing);
  }

  function FirstTry(x: Scan): seq<nat> {
    if x.count >= Weight(x.pos) then x.tried else x.tried + [x.pos]
  }

  lemma ThreeQueues(pos: nat, q: nat)
    requires pos < QUEUES
    ensures q < QUEUES <==> q == pos || q == At(pos, 1) || q == At(pos, 2)
    ensures pos != At(pos, 1) && At(pos, 1) != At(pos, 2) && At(At(pos, 1), 2) == pos
  {
  }

  /** A call with time for one round that reports no message has left out exactly the sub-queue after the cursor. */
  lemma OneRoundMissesOne(pos: nat, count: nat, ask: (nat, nat) -> Reply)
    requires Reachable(pos, count) && Rounds(Scan(pos, count, [], Nothing), 1, ask).got.Nothing?
    ensures forall q: nat :: q in Rounds(Scan(pos, count, [], Nothing), 1, ask).tried <==> q < QUEUES && q != At(pos, 1)
  {
    var x := Scan(pos, count, [], Nothing);
    assert Rounds(x, 1, ask) == Rounds(Round(x, 0, ask), 0, ask);
    FailingRound(x, ask);
    hide Round, Slot;
    forall q: nat ensures q in Rounds(x, 1, ask).tried <==> q < QUEUES && q != At(pos, 1) {
      ThreeQueues(pos, q);
    }
  }

  /** A call without a message goes on after any number of its rounds. */
  lemma {:induction false} RoundsGoOn(x: Scan, m: nat, n: nat, ask: (nat, nat) -> Reply)
    requires m <= n && Rounds(x, n, ask).got.Nothing?
    ensures Rounds(x, m, ask).got.Nothing? && Rounds(x, n, ask) == Rounds(Rounds(x, m, ask), n - m, ask)
    decreases m
  {
    hide Round;
    if m > 0 {
      assert x.got.Nothing?;
      RoundsGoOn(Round(x, 0, ask), m - 1, n - 1, ask);
    }
  }

  lemma {:induction false} RoundKeepsTries(x: Scan, i: nat, ask: (nat, nat) -> Reply)
    ensures x.tried <= Round(x, i, ask).tried
    decreases QUEUES - i
  {
    if i < QUEUES && x.got.Nothing? { RoundKeepsTries(Slot(x, i, ask), i + 1, ask); }
  }

  lemma {:induction false} RoundsKeepTries(x: Scan, n: nat, ask: (nat, nat) -> Reply)
    ensures x.tried <= Rounds(x, n, ask).tried
    decreases n
  {
    if n > 0 && x.got.Nothing? {
      RoundKeepsTries(x, 0, ask);
      hide Round;
      RoundsKeepTries(Round(x, 0, ask), n - 1, ask);
    }
  }

  /** Every sub-queue was tried. */
  ghost predicate SawAll(x: Scan) {
    forall q: nat :: q < QUEUES ==> q in x.tried
  }

  /** Every try found its sub-queue empty. */
  ghost predicate AllEmpty(x: Scan, ask: (nat, nat) -> Reply) {
    forall j :: 0 <= j < |x.tried| ==> ask(j, x.tried[j]) == IsEmpty
  }

  /** Every try but the last found its sub-queue empty, and the last one is what the call ends with. */
  ghost predicate Honest(x: Scan, ask: (nat, nat) -> Reply) {
    match x.got
    case Nothing => AllEmpty(x, ask)
    case Message(q) => EndsWith(x, q, HasMessage, ask)
    case Failure(q) => EndsWith(x, q, IsBroken, ask)
  }

  ghost predicate EndsWith(x: Scan, q: nat, reply: Reply, ask: (nat, nat) -> Reply) {
    var n := |x.tried| - 1;
    && n >= 0 && x.tried[n] == q && ask(n, q) == reply
    && forall j :: 0 <= j < n ==> ask(j, x.tried[j]) == IsEmpty
  }

  lemma SlotHonest(x: Scan, i: nat, ask: (nat, nat) -> Reply)
    requires x.got.Nothing? && AllEmpty(x, ask) && i < QUEUES
    ensures Honest(Slot(x, i, ask), ask)
  {
  }

  lemma {:induction false} RoundHonest(x: Scan, i: nat, ask: (nat, nat) -> Reply)
    requires Honest(x, ask)
    ensures Honest(Round(x, i, ask), ask)
    decreases QUEUES - i
  {
    if i < QUEUES && x.got.Nothing? {
      SlotHonest(x, i, ask);
      hide Slot, AllEmpty, EndsWith;
      RoundHonest(Slot(x, i, ask), i + 1, ask);
    }
  }

  /** A call returns the first message or error it meets, from the sub-queue it met it at. */
  lemma {:induction false} RoundsHonest(x: Scan, n: nat, ask: (nat, nat) -> Reply)
    requires Honest(x, ask)
    ensures Honest(Rounds(x, n, ask), ask)
    decreases n
  {
    if n > 0 && x.got.Nothing? {
      RoundHonest(x, 0, ask);
      hide Round, Honest;
      RoundsHonest(Round(x, 0, ask), n - 1, ask);
    }
  }

  lemma TwoRoundsSeeAll(pos: nat, count: nat, ask: (nat, nat) -> Reply)
    requires Reachable(pos, count) && Rounds(Scan(pos, count, [], Nothing), 2, ask).got.Nothing?
    ensures SawAll(Rounds(Scan(pos, count, [], Nothing), 2, ask))
  {
    var x := Scan(pos, count, [], Nothing);
    var y := Round(x, 0, ask);
    RoundsGoOn(x, 1, 2, ask);
    assert Rounds(x, 1, ask) == y && Rounds(y, 1, ask) == Round(y, 0, ask);
    FailingRound(x, ask);
    FailingRound(y, ask);
    hide Round, Slot;
    forall q: nat | q < QUEUES ensures q in Rounds(x, 2, ask).tried {
      ThreeQueues(pos, q);
    }
  }

  lemma SawMore(x: Scan, y: Scan)
    requires x.tried <= y.tried && SawAll(x)
    ensures SawAll(y)
  {
    forall q: nat | q < QUEUES ensures q in y.tried { assert q in x.tried; }
  }

  lemma ManyRoundsSeeAll(pos: nat, count: nat, n: nat, ask: (nat, nat) -> Reply)
    requires Reachable(pos, count) && n >= 2 && Rounds(Scan(pos, count, [], Nothing), n, ask).got.Nothing?
    ensures SawAll(Rounds(Scan(pos, count, [], Nothing), n, ask))
  {
    hide *;
    var x := Scan(pos, count, [], Nothing);
    RoundsGoOn(x, 2, n, ask);
    TwoRoundsSeeAll(pos, count, ask);
    RoundsKeepTries(Rounds(x, 2, ask), n - 2, ask);
    SawMore(Rounds(x, 2, ask), Rounds(x, n, ask));
  }

  /** A call that reports no message has found every sub-queue empty if and only if it had time for two rounds. */
  lemma MissedSeesAllIff(pos: nat, count: nat, n: nat, ask: (nat, nat) -> Reply)
    requires Reachable(pos, count) && Rounds(Scan(pos, count, [], Nothing), n, ask).got.Nothing?
    ensures AllEmpty(Rounds(Scan(pos, count, [], Nothing), n, ask), ask)
    ensures SawAll(Rounds(Scan(pos, count, [], Nothing), n, ask)) <==> n >= 2
  {
    var x := Scan(pos, count, [], Nothing);
    RoundsHonest(x, n, ask);
    hide Round, Slot, AllEmpty, Reachable;
    if n >= 2 {
      ManyRoundsSeeAll(pos, count, n, ask);
    } else if n == 1 {
      OneRoundMissesOne(pos, count, ask);
      assert At(pos, 1) !in Rounds(x, 1, ask).tried;
    } else {
      assert 0 !in Rounds(x, 0, ask).tried;
    }
  }
}
