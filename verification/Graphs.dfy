/** Directed graphs over node keys: paths, cycles and topological orders. */
module Graphs {
  import opened Sorting

  datatype Graph = Graph(nodes: set<Key>, edges: set<(Key, Key)>)

  ghost predicate Closed(g: Graph) {
    forall s, t :: (s, t) in g.edges ==> s in g.nodes && t in g.nodes
  }

  ghost predicate Path(g: Graph, p: seq<Key>) {
    |p| >= 1 && forall i :: 0 <= i < |p| - 1 ==> (p[i], p[i + 1]) in g.edges
  }

  ghost predicate PathFromTo(g: Graph, p: seq<Key>, a: Key, b: Key) {
    Path(g, p) && |p| >= 2 && p[0] == a && p[|p| - 1] == b
  }

  /** `b` lies strictly downstream of `a`. */
  ghost predicate Reaches(g: Graph, a: Key, b: Key) {
    exists p :: PathFromTo(g, p, a, b)
  }

  ghost predicate Acyclic(g: Graph) {
    forall a :: !Reaches(g, a, a)
  }

  ghost function Preds(g: Graph, t: Key): set<Key> {
    set s | s in g.nodes && (s, t) in g.edges
  }

  ghost function Descendants(g: Graph, a: Key): set<Key> {
    set b | b in g.nodes && Reaches(g, a, b)
  }

  /** Every source of an edge into a position of `order` stands before that position. */
  ghost predicate Forward(g: Graph, order: seq<Key>) {
    forall i, s :: 0 <= i < |order| && (s, order[i]) in g.edges ==> s in order[..i]
  }

  ghost predicate TopologicalOrder(g: Graph, order: seq<Key>) {
    Distinct(order) && Elems(order) == g.nodes && Forward(g, order)
  }

  /** The greatest position before `n` that holds one of `keys`, or -1. */
  function LastAmong(order: seq<Key>, keys: set<Key>, n: nat): (i: int)
    requires n <= |order|
    ensures -1 <= i < n
    ensures i >= 0 ==> order[i] in keys
    ensures forall j :: i < j < n ==> order[j] !in keys
  {
    if n == 0 then -1 else if order[n - 1] in keys then n - 1 else LastAmong(order, keys, n - 1)
  }

  /** The position of the last predecessor of `k`, or -1. */
  ghost function LastPred(g: Graph, order: seq<Key>, k: Key): int {
    LastAmong(order, Preds(g, k), |order|)
  }

  /** Keys come in the order of their last predecessors, and in key order if these are the same. */
  ghost predicate TieBreak(g: Graph, order: seq<Key>) {
    forall i, j :: 0 <= i < j < |order| ==>
      LastPred(g, order, order[i]) < LastPred(g, order, order[j])
      || (LastPred(g, order, order[i]) == LastPred(g, order, order[j]) && Leq(order[i], order[j]))
  }

  /** Lists with the same beginning and no predecessor after it have the last predecessor at the same place. */
  lemma LastPredPrefix(g: Graph, a: seq<Key>, b: seq<Key>, n: nat, k: Key)
    requires n <= |a| && n <= |b| && a[..n] == b[..n]
    requires forall i :: n <= i < |a| ==> a[i] !in Preds(g, k)
    requires forall i :: n <= i < |b| ==> b[i] !in Preds(g, k)
    ensures LastPred(g, a, k) == LastPred(g, b, k) < n
  {
    hide Preds;
    var i, j := LastPred(g, a, k), LastPred(g, b, k);
    assert forall m :: 0 <= m < n ==> a[m] == a[..n][m] == b[m];
  }

  /** In a topological order nothing from position `n` on precedes a key that comes no later than `n`. */
  lemma PredsBefore(g: Graph, order: seq<Key>, n: nat)
    requires TopologicalOrder(g, order) && n < |order|
    ensures forall i :: n <= i < |order| ==> order[i] !in Preds(g, order[n])
  {
  }

  lemma PredsSame(g: Graph, a: seq<Key>, b: seq<Key>, n: nat)
    requires TopologicalOrder(g, a) && TopologicalOrder(g, b) && n < |a| && n < |b| && a[..n] == b[..n]
    ensures LastPred(g, a, a[n]) == LastPred(g, b, a[n])
    ensures LastPred(g, a, b[n]) == LastPred(g, b, b[n])
  {
    PredsBefore(g, a, n);
    PredsBefore(g, b, n);
    assert forall m :: 0 <= m < n ==> a[m] == a[..n][m] == b[m];
    LastPredPrefix(g, a, b, n, a[n]);
    LastPredPrefix(g, a, b, n, b[n]);
  }

  /** A key at position `n` of one order stands at `n` or later in another order that agrees with it before `n`. */
  lemma StandsLater(g: Graph, a: seq<Key>, b: seq<Key>, n: nat) returns (m: nat)
    requires TopologicalOrder(g, a) && TopologicalOrder(g, b) && n < |a| && n <= |b| && a[..n] == b[..n]
    ensures n <= m < |b| && b[m] == a[n]
  {
    assert a[n] in Elems(a);
    m :| 0 <= m < |b| && b[m] == a[n];
    assert forall i :: 0 <= i < n ==> a[i] == a[..n][i] == b[i];
  }

  lemma SameNext(g: Graph, a: seq<Key>, b: seq<Key>, n: nat)
    requires TopologicalOrder(g, a) && TieBreak(g, a) && TopologicalOrder(g, b) && TieBreak(g, b)
    requires n < |a| && n < |b| && a[..n] == b[..n]
    ensures a[n] == b[n]
  {
    PredsSame(g, a, b, n);
    var i := StandsLater(g, a, b, n);
    var j := StandsLater(g, b, a, n);
    LeqTotal(a[n], b[n]);
    hide LastPred, TopologicalOrder, Leq;
  }

  lemma {:induction false} TieBreakPrefix(g: Graph, a: seq<Key>, b: seq<Key>, n: nat)
    requires TopologicalOrder(g, a) && TieBreak(g, a) && TopologicalOrder(g, b) && TieBreak(g, b)
    requires n <= |a| && n <= |b|
    ensures a[..n] == b[..n]
  {
    if n > 0 {
      TieBreakPrefix(g, a, b, n - 1);
      SameNext(g, a, b, n - 1);
      assert a[..n] == a[..n - 1] + [a[n - 1]] && b[..n] == b[..n - 1] + [b[n - 1]];
    }
  }

  /** Only one topological order breaks ties so. */
  lemma TieBreakUnique(g: Graph, a: seq<Key>, b: seq<Key>)
    requires TopologicalOrder(g, a) && TieBreak(g, a) && TopologicalOrder(g, b) && TieBreak(g, b)
    ensures a == b
  {
    DistinctCard(a);
    DistinctCard(b);
    assert |a| == |b|;
    hide *;
    TieBreakPrefix(g, a, b, |a|);
    assert a[..|a|] == a && b[..|b|] == b;
  }

  lemma SubsetCard<T>(a: set<T>, b: set<T>)
    requires a <= b
    ensures |a| <= |b|
    ensures |a| == |b| ==> a == b
  {
    assert |b| == |a| + |b - a| by { assert b == a + (b - a); }
    assert |b - a| == 0 ==> b - a == {};
  }

  lemma EdgeReaches(g: Graph, a: Key, b: Key)
    requires (a, b) in g.edges
    ensures Reaches(g, a, b)
  {
    assert PathFromTo(g, [a, b], a, b);
  }

  lemma ReachesTransitive(g: Graph, a: Key, b: Key, c: Key)
    requires Reaches(g, a, b) && Reaches(g, b, c)
    ensures Reaches(g, a, c)
  {
    var p :| PathFromTo(g, p, a, b);
    var q :| PathFromTo(g, q, b, c);
    assert PathFromTo(g, p + q[1..], a, c);
  }

  /** A set that is closed under edges out of itself and holds the successors of `a` holds all that `a` reaches. */
  lemma ClosedUnderEdges(g: Graph, a: Key, v: set<Key>)
    requires forall t :: (a, t) in g.edges ==> t in v
    requires forall s, t :: s in v && (s, t) in g.edges ==> t in v
    ensures forall b :: Reaches(g, a, b) ==> b in v
  {
    forall b | Reaches(g, a, b) ensures b in v {
      var p :| PathFromTo(g, p, a, b);
      PathStaysIn(g, p, v, |p| - 1);
    }
  }

  lemma {:induction false} PathStaysIn(g: Graph, p: seq<Key>, v: set<Key>, i: nat)
    requires Path(g, p) && 1 <= i < |p|
    requires forall t :: (p[0], t) in g.edges ==> t in v
    requires forall s, t :: s in v && (s, t) in g.edges ==> t in v
    ensures p[i] in v
  {
    assert (p[i - 1], p[i - 1 + 1]) in g.edges;
    if i > 1 { PathStaysIn(g, p, v, i - 1); }
  }

  ghost predicate HasPredIn(g: Graph, r: set<Key>, t: Key) {
    exists s :: s in r && (s, t) in g.edges
  }

  /** Every key of `r` has a predecessor in `r`. */
  ghost predicate NoSource(g: Graph, r: set<Key>) {
    r != {} && forall t {:trigger HasPredIn(g, r, t)} :: t in r ==> HasPredIn(g, r, t)
  }

  lemma {:induction false} WalkBack(g: Graph, r: set<Key>, n: nat) returns (p: seq<Key>)
    requires NoSource(g, r)
    ensures Path(g, p) && |p| == n + 1 && forall i :: 0 <= i < |p| ==> p[i] in r
  {
    if n == 0 {
      var t :| t in r;
      p := [t];
    } else {
      var q := WalkBack(g, r, n - 1);
      assert HasPredIn(g, r, q[0]);
      var s :| s in r && (s, q[0]) in g.edges;
      p := [s] + q;
    }
  }

  /** Keys that each have a predecessor among themselves hold a cycle. */
  lemma CycleAmong(g: Graph, r: set<Key>) returns (a: Key)
    requires NoSource(g, r)
    ensures a in r && Reaches(g, a, a)
  {
    var p := WalkBack(g, r, |r|);
    if Distinct(p) {
      DistinctCard(p);
      SubsetCard(Elems(p), r);
      assert false;
    }
    var i, j :| 0 <= i < j < |p| && p[i] == p[j];
    a := p[i];
    assert PathFromTo(g, p[i..j + 1], a, a);
  }

  lemma {:induction false} PathClimbs(g: Graph, order: seq<Key>, p: seq<Key>, at: nat) returns (start: nat)
    requires Forward(g, order) && Path(g, p) && at < |order| && order[at] == p[|p| - 1]
    ensures start < |order| && order[start] == p[0] && start + |p| - 1 <= at
  {
    if |p| == 1 {
      start := at;
    } else {
      var n := |p| - 2;
      assert (p[n], p[n + 1]) in g.edges;
      var i :| 0 <= i < at && order[i] == p[n];
      assert Path(g, p[..n + 1]) by {
        forall k | 0 <= k < n ensures (p[k], p[k + 1]) in g.edges {}
      }
      start := PathClimbs(g, order, p[..n + 1], i);
    }
  }

  /** A graph with a topological order has no cycle. */
  lemma TopologicalOrderAcyclic(g: Graph, order: seq<Key>)
    requires Closed(g) && TopologicalOrder(g, order)
    ensures Acyclic(g)
  {
    forall a ensures !Reaches(g, a, a) {
      if Reaches(g, a, a) {
        var p :| PathFromTo(g, p, a, a);
        assert (p[0], p[0 + 1]) in g.edges;
        assert a in Elems(order);
        var at :| 0 <= at < |order| && order[at] == a;
        var start := PathClimbs(g, order, p, at);
      }
    }
  }
}
