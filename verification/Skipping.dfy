/**
 Why `skipDownstream` ends, and what it reaches.  Its stack keeps no record of visited nodes, so it
 pops a node once for every walk that leads there.  In an acyclic graph the number of walks below a
 node is finite, and that number is the measure; the walks that lead to a node are what its in-degree
 falls by.
 */
module Skipping {
  import opened Sorting
  import opened Graphs
  import opened Dags
  import opened Evaluation

  // ---------- Walks ----------

  /** The sum of `m` over the listed keys. */
  ghost function Sum(keys: seq<Key>, m: map<Key, nat>): nat {
    if keys == [] then 0
    else Sum(keys[..|keys| - 1], m) + if keys[|keys| - 1] in m then m[keys[|keys| - 1]] else 0
  }

  lemma {:induction false} SumConcat(a: seq<Key>, b: seq<Key>, m: map<Key, nat>)
    ensures Sum(a + b, m) == Sum(a, m) + Sum(b, m)
  {
    if b == [] {
      assert a + b == a;
    } else {
      SumConcat(a, b[..|b| - 1], m);
      assert (a + b)[..|a + b| - 1] == a + b[..|b| - 1];
    }
  }

  lemma {:induction false} SumAgrees(keys: seq<Key>, m: map<Key, nat>, n: map<Key, nat>)
    requires forall k :: k in keys ==> k in m && k in n && m[k] == n[k]
    ensures Sum(keys, m) == Sum(keys, n)
  {
    if keys != [] { SumAgrees(keys[..|keys| - 1], m, n); }
  }

  ghost function Weight(base: map<Key, nat>, k: Key): nat {
    if k in base then base[k] else 0
  }

  /** The weight of the ends of all walks from a node, for the nodes from position `i` of the order on. */
  ghost function WeightsFrom(d: Dag, base: map<Key, nat>, i: nat): map<Key, nat>
    requires i <= |d.order|
    decreases |d.order| - i
  {
    if i == |d.order| then map[]
    else
      var rest := WeightsFrom(d, base, i + 1);
      rest[d.order[i] := Weight(base, d.order[i]) + Sum(Succs(d.edges, d.order[i]), rest)]
  }

  ghost function Weights(d: Dag, base: map<Key, nat>): map<Key, nat> {
    WeightsFrom(d, base, 0)
  }

  /** How many walks start at each node. */
  ghost function Walks(d: Dag): map<Key, nat> {
    Weights(d, map k | k in d.nodes :: 1)
  }

  /** How many walks lead from each node to `k`. */
  ghost function WalksTo(d: Dag, k: Key): map<Key, nat> {
    Weights(d, map[k := 1])
  }

  lemma {:induction false} WeightsKeys(d: Dag, base: map<Key, nat>, i: nat)
    requires i <= |d.order|
    ensures WeightsFrom(d, base, i).Keys == Elems(d.order[i..])
    decreases |d.order| - i
  {
    if i < |d.order| {
      WeightsKeys(d, base, i + 1);
      ElemsHead(d.order[i..]);
      assert d.order[i..][1..] == d.order[i + 1..];
    } else {
      assert d.order[i..] == [];
    }
  }

  lemma {:induction false} WeightsStable(d: Dag, base: map<Key, nat>, i: nat, j: nat, k: Key)
    requires Distinct(d.order) && i <= j <= |d.order| && k in WeightsFrom(d, base, j)
    ensures k in WeightsFrom(d, base, i) && WeightsFrom(d, base, i)[k] == WeightsFrom(d, base, j)[k]
    decreases j - i
  {
    if i < j {
      WeightsStable(d, base, i + 1, j, k);
      WeightsKeys(d, base, i + 1);
      assert k in d.order[i + 1..];
    }
  }

  lemma SuccessorLater(d: Dag, i: nat, s: Key)
    requires WellFormed(d) && i < |d.order| && s in Succs(d.edges, d.order[i])
    ensures s in Elems(d.order[i + 1..])
  {
    var g := DagGraph(d);
    assert (d.order[i], s) in g.edges;
    assert s in Elems(d.order);
    var j :| 0 <= j < |d.order| && d.order[j] == s;
    assert (d.order[i], d.order[j]) in g.edges;
    assert d.order[i] in d.order[..j];
    var p :| 0 <= p < j && d.order[p] == d.order[i];
    assert d.order[i + 1..][j - i - 1] == s;
  }

  /** The walks from a node are the node itself and the walks from its successors. */
  lemma WalksEquation(d: Dag, base: map<Key, nat>, k: Key)
    requires WellFormed(d) && k in d.nodes
    ensures k in Weights(d, base) && Weights(d, base)[k] == Weight(base, k) + Sum(Succs(d.edges, k), Weights(d, base))
  {
    assert k in Elems(d.order);
    var i :| 0 <= i < |d.order| && d.order[i] == k;
    WeightsStable(d, base, 0, i, k);
    forall s | s in Succs(d.edges, k)
      ensures s in WeightsFrom(d, base, i + 1) && s in Weights(d, base)
      ensures WeightsFrom(d, base, i + 1)[s] == Weights(d, base)[s]
    {
      SuccessorLater(d, i, s);
      WeightsKeys(d, base, i + 1);
      WeightsStable(d, base, 0, i + 1, s);
    }
    SumAgrees(Succs(d.edges, k), WeightsFrom(d, base, i + 1), Weights(d, base));
  }

  /** Popping a node and pushing its successors takes the node's own weight off the stack. */
  lemma StackWeight(d: Dag, base: map<Key, nat>, stack: seq<Key>)
    requires WellFormed(d) && stack != [] && stack[|stack| - 1] in d.nodes
    ensures var cur := stack[|stack| - 1];
      Sum(stack, Weights(d, base))
        == Sum(stack[..|stack| - 1] + Succs(d.edges, cur), Weights(d, base)) + Weight(base, cur)
  {
    WalksEquation(d, base, stack[|stack| - 1]);
    SumConcat(stack[..|stack| - 1], Succs(d.edges, stack[|stack| - 1]), Weights(d, base));
  }

  // ---------- The descent ----------

  /** After `visited` have been popped and `stack` is left. */
  ghost predicate Descending(g: Graph, from: Key, visited: set<Key>, stack: seq<Key>) {
    && visited <= Descendants(g, from) && Elems(stack) <= Descendants(g, from)
    && (forall s :: (from, s) in g.edges ==> s in visited || s in stack)
    && (forall v, s :: v in visited && (v, s) in g.edges ==> s in visited || s in stack)
  }

  lemma DescendsFurther(t: Task, from: Key, visited: set<Key>, stack: seq<Key>)
    requires t.Valid() && Descending(t.Graph(), from, visited, stack) && stack != []
    ensures var cur := stack[|stack| - 1];
      && cur in t.dag.nodes
      && Descending(t.Graph(), from, visited + {cur}, stack[..|stack| - 1] + Succs(t.dag.edges, cur))
  {
    var g := t.Graph();
    var cur, rest := stack[|stack| - 1], stack[..|stack| - 1];
    assert stack == rest + [cur];
    assert cur in Elems(stack);
    forall s | s in rest + Succs(t.dag.edges, cur) ensures s in Descendants(g, from) {
      if s in rest {
        assert s in Elems(stack);
      } else {
        assert (cur, s) in g.edges;
        EdgeReaches(g, cur, s);
        ReachesTransitive(g, from, cur, s);
      }
    }
  }

  lemma DescentStarts(t: Task, from: Key)
    requires t.Valid()
    ensures Descending(t.Graph(), from, {}, Succs(t.dag.edges, from))
  {
    var g := t.Graph();
    forall s | s in Succs(t.dag.edges, from) ensures s in Descendants(g, from) {
      assert (from, s) in g.edges;
      EdgeReaches(g, from, s);
    }
  }

  lemma DescentEnds(t: Task, from: Key, visited: set<Key>)
    requires t.Valid() && Descending(t.Graph(), from, visited, [])
    ensures visited == Descendants(t.Graph(), from)
  {
    ClosedUnderEdges(t.Graph(), from, visited);
  }

  lemma StackShrinks(d: Dag, stack: seq<Key>)
    requires WellFormed(d) && stack != [] && stack[|stack| - 1] in d.nodes
    ensures Sum(stack[..|stack| - 1] + Succs(d.edges, stack[|stack| - 1]), Walks(d)) < Sum(stack, Walks(d))
  {
    StackWeight(d, map k | k in d.nodes :: 1, stack);
  }

  // ---------- In-degrees ----------

  /** Each in-degree has fallen from `a` by the walks from `from` that are no longer below the stack. */
  ghost predicate Drained(d: Dag, from: Key, stack: seq<Key>, a: map<Key, int>, b: map<Key, int>) {
    b.Keys == a.Keys && forall x :: x in a ==>
      b[x] + Sum(Succs(d.edges, from), WalksTo(d, x)) == a[x] + Sum(stack, WalksTo(d, x))
  }

  lemma DrainsFurther(d: Dag, from: Key, stack: seq<Key>, a: map<Key, int>, b: map<Key, int>)
    requires WellFormed(d) && Drained(d, from, stack, a, b) && stack != []
    requires stack[|stack| - 1] in d.nodes && stack[|stack| - 1] in a
    ensures var cur := stack[|stack| - 1];
      cur in b && Drained(d, from, stack[..|stack| - 1] + Succs(d.edges, cur), a, b[cur := b[cur] - 1])
  {
    hide WellFormed, Sum, Weights;
    forall x | x in a { StackWeight(d, map[x := 1], stack); }
  }

  lemma DrainStarts(d: Dag, from: Key, a: map<Key, int>)
    ensures Drained(d, from, Succs(d.edges, from), a, a)
  {
  }

  /** Each in-degree has fallen by the number of walks that lead there from `from`. */
  ghost predicate LoweredByWalks(d: Dag, from: Key, a: map<Key, int>, b: map<Key, int>) {
    b.Keys == a.Keys && forall x :: x in a ==> b[x] == a[x] - Sum(Succs(d.edges, from), WalksTo(d, x))
  }

  lemma DrainedOut(d: Dag, from: Key, a: map<Key, int>, b: map<Key, int>)
    requires Drained(d, from, [], a, b)
    ensures LoweredByWalks(d, from, a, b)
  {
  }
}
