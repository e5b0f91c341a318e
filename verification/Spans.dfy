/**
 Span aggregation (`internal/observability/tracing/store.go`), with times as whole nanoseconds.

 `CoveredTime` measures the union of the child intervals inside the parent: the number of unit
 cells that some child covers.  `Descendants` is the transitive closure even when parent links form
 a cycle.  `SpanStore` is the bounded store with its reverse index.
 */
module Spans {
  import opened Sorting
  import opened Graphs

  datatype Span = Span(id: Key, parentId: Key, name: string, start: int, end: int, selfTime: int) {
    function Duration(): int { end - start }
  }

  // ---------- The union of intervals ----------

  datatype Interval = Interval(s: int, e: int)

  /** The unit cells from `a` up to `b`. */
  ghost function Range(a: int, b: int): (cells: set<int>)
    ensures forall t :: t in cells <==> a <= t < b
    ensures a <= b ==> |cells| == b - a
    decreases b - a
  {
    if a >= b then {} else Range(a, b - 1) + {b - 1}
  }

  /** The cells below `p` that some interval covers. */
  ghost function Cells(ivs: seq<Interval>, p: int): set<int> {
    set t | t in Range(0, p) && exists i :: 0 <= i < |ivs| && ivs[i].s <= t < ivs[i].e
  }

  /** Non-empty intervals inside the parent. */
  predicate Clipped(ivs: seq<Interval>, p: int) {
    forall i :: 0 <= i < |ivs| ==> 0 <= ivs[i].s < ivs[i].e <= p
  }

  predicate ByStart(ivs: seq<Interval>) {
    forall i, j :: 0 <= i < j < |ivs| ==> ivs[i].s <= ivs[j].s
  }

  lemma CellsMore(ivs: seq<Interval>, v: Interval, p: int)
    requires 0 <= v.s <= v.e <= p
    ensures Cells(ivs + [v], p) == Cells(ivs, p) + Range(v.s, v.e)
  {
    forall t | t in Cells(ivs + [v], p) ensures t in Cells(ivs, p) + Range(v.s, v.e) {
      var i :| 0 <= i < |ivs + [v]| && (ivs + [v])[i].s <= t < (ivs + [v])[i].e;
      if i < |ivs| { assert ivs[i].s <= t < ivs[i].e; }
    }
    forall t | t in Cells(ivs, p) + Range(v.s, v.e) ensures t in Cells(ivs + [v], p) {
      if t in Range(v.s, v.e) {
        assert (ivs + [v])[|ivs|].s <= t < (ivs + [v])[|ivs|].e;
      } else {
        var i :| 0 <= i < |ivs| && ivs[i].s <= t < ivs[i].e;
        assert (ivs + [v])[i].s <= t < (ivs + [v])[i].e;
      }
    }
  }

  /** Reordering the intervals covers the same cells. */
  lemma CellsReorder(a: seq<Interval>, b: seq<Interval>, p: int)
    requires multiset(a) == multiset(b)
    ensures Cells(a, p) == Cells(b, p)
    ensures Clipped(a, p) ==> Clipped(b, p)
  {
    assert forall v :: v in a <==> v in multiset(a);
    assert forall v :: v in b <==> v in multiset(b);
    forall t ensures t in Cells(a, p) <==> t in Cells(b, p) {
      if t in Cells(a, p) {
        var i :| 0 <= i < |a| && a[i].s <= t < a[i].e;
        assert a[i] in b;
      }
      if t in Cells(b, p) {
        var i :| 0 <= i < |b| && b[i].s <= t < b[i].e;
        assert b[i] in a;
      }
    }
    if Clipped(a, p) {
      forall i | 0 <= i < |b| ensures 0 <= b[i].s < b[i].e <= p { assert b[i] in a; }
    }
  }

  /** What the merge keeps: the cells so far, of which the last run is `[curS, curE)`. */
  ghost predicate Merged(cells: set<int>, total: int, curS: int, curE: int) {
    && curS < curE && |cells| == total + (curE - curS)
    && forall t :: t >= curS ==> (t in cells <==> t < curE)
  }

  lemma MergeExtends(cells: set<int>, total: int, curS: int, curE: int, v: Interval)
    requires Merged(cells, total, curS, curE) && curS <= v.s <= curE && v.s < v.e
    ensures Merged(cells + Range(v.s, v.e), total, curS, if v.e > curE then v.e else curE)
  {
    if v.e > curE {
      assert cells + Range(v.s, v.e) == cells + Range(curE, v.e);
      assert cells !! Range(curE, v.e);
    } else {
      assert cells + Range(v.s, v.e) == cells;
    }
  }

  lemma MergeStartsAnew(cells: set<int>, total: int, curS: int, curE: int, v: Interval)
    requires Merged(cells, total, curS, curE) && curE < v.s < v.e
    ensures Merged(cells + Range(v.s, v.e), total + (curE - curS), v.s, v.e)
  {
    assert cells !! Range(v.s, v.e);
  }

  lemma InsertByStart(r: seq<Interval>, j: nat, v: Interval)
    requires ByStart(r) && j <= |r| && (j > 0 ==> r[j - 1].s <= v.s) && forall k :: j <= k < |r| ==> v.s < r[k].s
    ensures ByStart(r[..j] + [v] + r[j..])
  {
    forall k | 0 <= k < j ensures r[k].s <= v.s {
      assert k < j - 1 ==> r[k].s <= r[j - 1].s;
    }
  }

  method SortByStart(ivs: seq<Interval>) returns (r: seq<Interval>)
    ensures multiset(r) == multiset(ivs) && ByStart(r)
  {
    r := [];
    for i := 0 to |ivs|
      invariant multiset(r) == multiset(ivs[..i]) && ByStart(r)
    {
      var j := |r|;
      while j > 0 && r[j - 1].s > ivs[i].s
        invariant 0 <= j <= |r| && forall k :: j <= k < |r| ==> ivs[i].s < r[k].s
      {
        j := j - 1;
      }
      InsertByStart(r, j, ivs[i]);
      InsertElements(r, j, ivs, i);
      r := r[..j] + [ivs[i]] + r[j..];
    }
    assert ivs[..|ivs|] == ivs;
  }

  /** The merge loop over sorted intervals. */
  method MergeLength(ivs: seq<Interval>, p: int) returns (total: int)
    requires ivs != [] && Clipped(ivs, p) && ByStart(ivs)
    ensures total == |Cells(ivs, p)|
  {
    total := 0;
    var curS, curE := ivs[0].s, ivs[0].e;
    FirstRun(ivs, p);
    for i := 1 to |ivs|
      invariant Merged(Cells(ivs[..i], p), total, curS, curE)
      invariant curS <= ivs[i - 1].s
    {
      var v := ivs[i];
      assert ivs[..i + 1] == ivs[..i] + [v];
      CellsMore(ivs[..i], v, p);
      if v.s <= curE {
        MergeExtends(Cells(ivs[..i], p), total, curS, curE, v);
        if v.e > curE {
          curE := v.e;
        }
      } else {
        MergeStartsAnew(Cells(ivs[..i], p), total, curS, curE, v);
        total := total + (curE - curS);
        curS, curE := v.s, v.e;
      }
    }
    assert ivs[..|ivs|] == ivs;
    total := total + (curE - curS);
  }

  lemma RangeMerged(v: Interval)
    requires v.s < v.e
    ensures Merged(Range(v.s, v.e), 0, v.s, v.e)
  {
    hide Range;
  }

  lemma FirstCells(v: Interval, p: int)
    requires 0 <= v.s < v.e <= p
    ensures Cells([v], p) == Range(v.s, v.e)
  {
    assert Cells([], p) == {};
    CellsMore([], v, p);
    assert [] + [v] == [v];
    hide Cells, Range;
  }

  lemma FirstRun(ivs: seq<Interval>, p: int)
    requires ivs != [] && Clipped(ivs, p)
    ensures Merged(Cells(ivs[..1], p), 0, ivs[0].s, ivs[0].e)
  {
    FirstCells(ivs[0], p);
    RangeMerged(ivs[0]);
    hide Cells, Merged, Range;
    assert ivs[..1] == [ivs[0]];
  }

  // ---------- Self time ----------

  /** Some child runs at time `t` after the parent's start. */
  ghost predicate Covers(parent: Span, kids: seq<Span>, t: int) {
    exists i :: 0 <= i < |kids| && kids[i].start - parent.start <= t < kids[i].end - parent.start
  }

  /** The cells of the parent, counted from its start, that some child covers. */
  ghost function ChildCells(parent: Span, kids: seq<Span>): set<int> {
    set t | t in Range(0, parent.Duration()) && Covers(parent, kids, t)
  }

  lemma CoversMore(parent: Span, kids: seq<Span>, k: Span, t: int)
    ensures Covers(parent, kids + [k], t) <==>
      Covers(parent, kids, t) || k.start - parent.start <= t < k.end - parent.start
  {
    if Covers(parent, kids, t) {
      var i :| 0 <= i < |kids| && kids[i].start - parent.start <= t < kids[i].end - parent.start;
      assert (kids + [k])[i] == kids[i];
    }
    assert (kids + [k])[|kids|] == k;
  }

  /** A child's part of the parent. */
  function Clip(parent: Span, k: Span): Interval {
    var s, e := k.start - parent.start, k.end - parent.start;
    Interval(if s < 0 then 0 else s, if e > parent.Duration() then parent.Duration() else e)
  }

  lemma ChildCellsMore(parent: Span, kids: seq<Span>, k: Span)
    ensures ChildCells(parent, kids + [k]) == ChildCells(parent, kids) + Range(Clip(parent, k).s, Clip(parent, k).e)
  {
    var p := parent.Duration();
    forall t ensures t in ChildCells(parent, kids + [k]) <==>
      t in ChildCells(parent, kids) || t in Range(Clip(parent, k).s, Clip(parent, k).e)
    {
      CoversMore(parent, kids, k, t);
      hide Covers;
    }
  }

  lemma ClipMore(parent: Span, kids: seq<Span>, k: Span, ivs: seq<Interval>)
    requires Cells(ivs, parent.Duration()) == ChildCells(parent, kids)
    ensures var v := Clip(parent, k);
      Cells(if v.e > v.s then ivs + [v] else ivs, parent.Duration()) == ChildCells(parent, kids + [k])
  {
    var v := Clip(parent, k);
    ChildCellsMore(parent, kids, k);
    if v.e > v.s { CellsMore(ivs, v, parent.Duration()); }
    hide Cells, ChildCells;
  }

  /** The children's intervals inside the parent; those that lie outside are left out. */
  method ClipAll(parent: Span, kids: seq<Span>) returns (ivs: seq<Interval>)
    ensures Clipped(ivs, parent.Duration()) && Cells(ivs, parent.Duration()) == ChildCells(parent, kids)
  {
    var p := parent.Duration();
    ivs := [];
    assert Cells([], p) == ChildCells(parent, kids[..0]);
    for i := 0 to |kids|
      invariant Clipped(ivs, p) && Cells(ivs, p) == ChildCells(parent, kids[..i])
    {
      var k := kids[i];
      ClipMore(parent, kids[..i], k, ivs);
      assert kids[..i + 1] == kids[..i] + [k];
      hide Cells, ChildCells;
      var s, e := k.start - parent.start, k.end - parent.start;
      if s < 0 {
        s := 0;
      }
      if e > p {
        e := p;
      }
      if e > s {
        ivs := ivs + [Interval(s, e)];
      }
    }
    assert kids[..|kids|] == kids;
  }

  lemma NothingCovered(parent: Span, p: int)
    ensures Cells([], p) == {} && ChildCells(parent, []) == {}
  {
  }

  /** `coveredMS`: the length of the union of the child intervals clipped to the parent. */
  method CoveredTime(parent: Span, kids: seq<Span>) returns (covered: int)
    ensures covered == |ChildCells(parent, kids)|
  {
    NothingCovered(parent, parent.Duration());
    hide Cells, ChildCells, Clipped;
    if |kids| == 0 {
      return 0;
    }
    var ivs := ClipAll(parent, kids);
    if |ivs| == 0 {
      return 0;
    }
    var sorted := SortByStart(ivs);
    CellsReorder(ivs, sorted, parent.Duration());
    ClippedReorder(ivs, sorted, parent.Duration());
    covered := MergeLength(sorted, parent.Duration());
  }

  lemma ClippedReorder(a: seq<Interval>, b: seq<Interval>, p: int)
    requires multiset(a) == multiset(b) && Clipped(a, p)
    ensures Clipped(b, p)
  {
    forall i | 0 <= i < |b| ensures 0 <= b[i].s < b[i].e <= p {
      assert b[i] in multiset(b);
      assert b[i] in a;
    }
  }

  /** A child alone covers what it shares with its parent. */
  lemma ChildAlone(parent: Span, k: Span)
    ensures var s, e := if k.start < parent.start then parent.start else k.start,
                        if k.end > parent.end then parent.end else k.end;
      |ChildCells(parent, [k])| == if s < e then e - s else 0
  {
    var v := Clip(parent, k);
    ChildCellsMore(parent, [], k);
    NothingCovered(parent, parent.Duration());
    assert [] + [k] == [k];
    assert ChildCells(parent, [k]) == Range(v.s, v.e);
    assert v.s >= v.e ==> Range(v.s, v.e) == {};
    hide ChildCells, Range;
  }

  /** Children together cover what some of them cover. */
  lemma ChildrenTogether(parent: Span, a: seq<Span>, b: seq<Span>)
    ensures ChildCells(parent, a + b) == ChildCells(parent, a) + ChildCells(parent, b)
  {
    forall t ensures Covers(parent, a + b, t) <==> Covers(parent, a, t) || Covers(parent, b, t) {
      if Covers(parent, a, t) {
        var i :| 0 <= i < |a| && a[i].start - parent.start <= t < a[i].end - parent.start;
        assert (a + b)[i] == a[i];
      }
      if Covers(parent, b, t) {
        var i :| 0 <= i < |b| && b[i].start - parent.start <= t < b[i].end - parent.start;
        assert (a + b)[|a| + i] == b[i];
      }
    }
    hide Covers;
  }

  lemma CoveredWithin(parent: Span, kids: seq<Span>)
    requires parent.start <= parent.end
    ensures 0 <= |ChildCells(parent, kids)| <= parent.Duration()
  {
    SubsetCard(ChildCells(parent, kids), Range(0, parent.Duration()));
  }

  /** The spans whose parent is `id`. */
  function ChildrenOf(spans: seq<Span>, id: Key): seq<Span> {
    if spans == [] then []
    else
      var last := spans[|spans| - 1];
      ChildrenOf(spans[..|spans| - 1], id) + if last.parentId != "" && last.parentId == id then [last] else []
  }

  lemma {:induction false} ChildrenAre(spans: seq<Span>, id: Key)
    ensures forall s :: s in ChildrenOf(spans, id) <==> s in spans && id != "" && s.parentId == id
  {
    if spans != [] {
      var n := |spans| - 1;
      ChildrenAre(spans[..n], id);
      assert spans == spans[..n] + [spans[n]];
    }
  }

  function Kids(table: map<Key, seq<Span>>, id: Key): seq<Span> {
    if id in table then table[id] else []
  }

  method KidsTable(spans: seq<Span>) returns (table: map<Key, seq<Span>>)
    ensures forall id :: Kids(table, id) == ChildrenOf(spans, id)
  {
    table := map[];
    for i := 0 to |spans|
      invariant forall id :: Kids(table, id) == ChildrenOf(spans[..i], id)
    {
      var s := spans[i];
      assert spans[..i + 1][..i] == spans[..i];
      if s.parentId != "" {
        table := table[s.parentId := Kids(table, s.parentId) + [s]];
      }
    }
    assert spans[..|spans|] == spans;
  }

  /**
   Every span gets the time that no child covers; it is never negative, so the clamp never fires.  The
   snapshot that precedes this has moved any end that came before its start to the start.
   */
  method ComputeSelfTimes(spans: array<Span>)
    requires forall i :: 0 <= i < spans.Length ==> spans[i].start <= spans[i].end
    modifies spans
    ensures forall i :: 0 <= i < spans.Length ==>
      && spans[i] == old(spans[i]).(selfTime := spans[i].selfTime)
      && spans[i].selfTime ==
        spans[i].Duration() - |ChildCells(old(spans[i]), ChildrenOf(old(spans[..]), old(spans[i]).id))|
      && 0 <= spans[i].selfTime <= spans[i].Duration()
  {
    hide ChildCells, ChildrenOf;
    var kids := KidsTable(spans[..]);
    for i := 0 to spans.Length
      invariant forall j :: i <= j < spans.Length ==> spans[j] == old(spans[j])
      invariant forall j :: 0 <= j < i ==>
        && spans[j] == old(spans[j]).(selfTime := spans[j].selfTime)
        && spans[j].selfTime ==
          spans[j].Duration() - |ChildCells(old(spans[j]), ChildrenOf(old(spans[..]), old(spans[j]).id))|
        && 0 <= spans[j].selfTime <= spans[j].Duration()
    {
      var covered := CoveredTime(spans[i], Kids(kids, spans[i].id));
      CoveredWithin(spans[i], Kids(kids, spans[i].id));
      var self := spans[i].Duration() - covered;
      if self < 0 {
        self := 0;
      }
      spans[i] := spans[i].(selfTime := self);
    }
  }

  /** Parallel children are not counted twice: a child inside another's interval changes nothing. */
  lemma OverlapNotCountedTwice(parent: Span, kids: seq<Span>, a: Span, b: Span)
    requires a in kids && a.start <= b.start && b.end <= a.end
    ensures ChildCells(parent, kids + [b]) == ChildCells(parent, kids)
  {
    var j :| 0 <= j < |kids| && kids[j] == a;
    forall t | t in Range(0, parent.Duration()) ensures Covers(parent, kids + [b], t) <==> Covers(parent, kids, t) {
      CoversMore(parent, kids, b, t);
      if b.start - parent.start <= t < b.end - parent.start {
        assert kids[j].start - parent.start <= t < kids[j].end - parent.start;
      }
    }
  }

  // ---------- Descendants ----------

  /** Parent links as a graph; nothing forbids cycles. */
  ghost function LinkGraph(spans: seq<Span>): Graph {
    Graph(set s | s in spans :: s.id, set s | s in spans && s.parentId != "" :: (s.parentId, s.id))
  }

  ghost function Below(spans: seq<Span>, root: Key): set<Key> {
    set b | b in LinkGraph(spans).nodes && Reaches(LinkGraph(spans), root, b)
  }

  method LinkTable(spans: seq<Span>) returns (table: map<Key, seq<Key>>)
    ensures forall p, c :: p in table && c in table[p] <==> (p, c) in LinkGraph(spans).edges
  {
    table := map[];
    for i := 0 to |spans|
      invariant forall p, c :: p in table && c in table[p] <==> (p, c) in LinkGraph(spans[..i]).edges
    {
      var s := spans[i];
      assert spans[..i + 1] == spans[..i] + [s];
      LinkMore(spans[..i], s);
      if s.parentId != "" {
        table := table[s.parentId := (if s.parentId in table then table[s.parentId] else []) + [s.id]];
      }
    }
    assert spans[..|spans|] == spans;
  }

  lemma LinkMore(spans: seq<Span>, s: Span)
    ensures LinkGraph(spans + [s]).edges ==
      LinkGraph(spans).edges + if s.parentId != "" then {(s.parentId, s.id)} else {}
  {
  }

  /** The worklist so far: everything found lies below the root, and what is found has its children found or waiting. */
  ghost predicate Searching(g: Graph, root: Key, found: set<Key>, stack: seq<Key>) {
    && (forall b :: b in found || b in stack ==> b in g.nodes && Reaches(g, root, b))
    && (forall c :: (root, c) in g.edges ==> c in found || c in stack)
    && (forall p, c :: p in found && (p, c) in g.edges ==> c in found || c in stack)
  }

  lemma SearchStarts(spans: seq<Span>, root: Key, kids: seq<Key>)
    requires forall c :: c in kids <==> (root, c) in LinkGraph(spans).edges
    ensures Searching(LinkGraph(spans), root, {}, kids)
  {
    var g := LinkGraph(spans);
    forall b | b in kids ensures b in g.nodes && Reaches(g, root, b) {
      EdgeReaches(g, root, b);
    }
  }

  lemma SearchVisits(spans: seq<Span>, root: Key, found: set<Key>, stack: seq<Key>, kids: seq<Key>)
    requires stack != [] && Searching(LinkGraph(spans), root, found, stack)
    requires forall c :: c in kids <==> (stack[|stack| - 1], c) in LinkGraph(spans).edges
    ensures Searching(LinkGraph(spans), root, found + {stack[|stack| - 1]}, stack[..|stack| - 1] + kids)
  {
    var g := LinkGraph(spans);
    var cur := stack[|stack| - 1];
    assert stack == stack[..|stack| - 1] + [cur];
    forall b | b in kids ensures b in g.nodes && Reaches(g, root, b) {
      EdgeReaches(g, cur, b);
      ReachesTransitive(g, root, cur, b);
    }
  }

  lemma SearchSkips(g: Graph, root: Key, found: set<Key>, stack: seq<Key>)
    requires stack != [] && Searching(g, root, found, stack) && stack[|stack| - 1] in found
    ensures Searching(g, root, found, stack[..|stack| - 1])
  {
    assert stack == stack[..|stack| - 1] + [stack[|stack| - 1]];
  }

  lemma SearchEnds(spans: seq<Span>, root: Key, found: set<Key>)
    requires Searching(LinkGraph(spans), root, found, [])
    ensures found == Below(spans, root)
  {
    ClosedUnderEdges(LinkGraph(spans), root, found);
  }

  /** The children of `root` and of every span in `v` are in `v`. */
  ghost predicate HoldsChildren(spans: seq<Span>, root: Key, v: set<Key>) {
    forall s :: s in spans && s.parentId != "" && (s.parentId == root || s.parentId in v) ==> s.id in v
  }

  /** What lies below `root` is the least set that holds the children of `root` and of its own spans. */
  lemma BelowIsLeast(spans: seq<Span>, root: Key)
    ensures HoldsChildren(spans, root, Below(spans, root))
    ensures forall v :: HoldsChildren(spans, root, v) ==> Below(spans, root) <= v
  {
    var g := LinkGraph(spans);
    forall s | s in spans && s.parentId != "" && (s.parentId == root || s.parentId in Below(spans, root))
      ensures s.id in Below(spans, root)
    {
      assert (s.parentId, s.id) in g.edges;
      EdgeReaches(g, s.parentId, s.id);
      if s.parentId != root { ReachesTransitive(g, root, s.parentId, s.id); }
    }
    forall v | HoldsChildren(spans, root, v) ensures Below(spans, root) <= v {
      assert forall p, c :: (p, c) in g.edges && (p == root || p in v) ==> c in v;
      ClosedUnderEdges(g, root, v);
    }
  }

  /** Exactly the spans below `root`, also when the links form cycles. */
  method DescendantsOf(spans: seq<Span>, root: Key) returns (found: set<Key>)
    ensures found == Below(spans, root)
  {
    var kids := LinkTable(spans);
    found := {};
    var stack := if root in kids then kids[root] else [];
    SearchStarts(spans, root, stack);
    ghost var g := LinkGraph(spans);
    while stack != []
      invariant Searching(g, root, found, stack) && found <= g.nodes
      decreases |g.nodes - found|, |stack|
    {
      var cur := stack[|stack| - 1];
      if cur in found {
        SearchSkips(g, root, found, stack);
        stack := stack[..|stack| - 1];
      } else {
        SearchVisits(spans, root, found, stack, if cur in kids then kids[cur] else []);
        SetShrinks(g.nodes, found, cur);
        found := found + {cur};
        stack := stack[..|stack| - 1] + if cur in kids then kids[cur] else [];
      }
    }
    SearchEnds(spans, root, found);
  }

  lemma SetShrinks(all: set<Key>, found: set<Key>, cur: Key)
    requires cur in all && cur !in found
    ensures |all - (found + {cur})| < |all - found|
  {
    assert all - found == (all - (found + {cur})) + {cur};
  }

  // ---------- Waiting in the queue ----------

  const TASK_EXECUTE := "task.execute"

  /** A span outside the execution that ended, after the zero time, before it began. */
  ghost predicate Anchor(spans: seq<Span>, exec: Span, s: Span) {
    s in spans && s.id != exec.id && s.id !in Below(spans, exec.id) && 0 < s.end < exec.start
  }

  ghost predicate FirstExecution(spans: seq<Span>, x: int) {
    0 <= x < |spans| && spans[x].name == TASK_EXECUTE && forall j :: 0 <= j < x ==> spans[j].name != TASK_EXECUTE
  }

  /** The gap between the last span that ended before the execution and the execution; never negative. */
  method QueueWait(spans: seq<Span>) returns (wait: int)
    ensures wait >= 0
    ensures (forall j :: 0 <= j < |spans| ==> spans[j].name != TASK_EXECUTE) ==> wait == 0
    ensures forall x :: FirstExecution(spans, x) && (forall s :: !Anchor(spans, spans[x], s)) ==> wait == 0
    ensures forall x, s :: FirstExecution(spans, x) && Anchor(spans, spans[x], s) ==> 0 < wait <= spans[x].start - s.end
    ensures forall x :: FirstExecution(spans, x) && wait > 0 ==>
      exists s :: Anchor(spans, spans[x], s) && wait == spans[x].start - s.end
  {
    var x := 0;
    while x < |spans| && spans[x].name != TASK_EXECUTE
      invariant 0 <= x <= |spans| && forall j :: 0 <= j < x ==> spans[j].name != TASK_EXECUTE
    {
      x := x + 1;
    }
    if x == |spans| {
      return 0;
    }
    var exec := spans[x];
    assert forall y :: FirstExecution(spans, y) ==> y == x;
    var workerSide := DescendantsOf(spans, exec.id);
    var anchor := 0;
    for i := 0 to |spans|
      invariant 0 <= anchor && (anchor > 0 ==> exists s :: Anchor(spans, exec, s) && s.end == anchor)
      invariant forall s :: s in spans[..i] && Anchor(spans, exec, s) ==> s.end <= anchor
    {
      var s := spans[i];
      assert spans[..i + 1] == spans[..i] + [s];
      if s.id != exec.id && s.id !in workerSide && s.end < exec.start && s.end > anchor {
        assert Anchor(spans, exec, s);
        anchor := s.end;
      }
    }
    assert spans[..|spans|] == spans;
    if anchor == 0 {
      return 0;
    }
    wait := exec.start - anchor;
  }
}
