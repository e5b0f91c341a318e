/**
 What a workflow run should compute: nodes evaluated one after another in topological order.

 `Ref(t)` is the reference that every concurrent run is compared with.  A node whose predecessors
 all succeeded runs on the input assembled from their outputs, and is tried again after an error as
 long as its retry budget lasts; an approval node takes the human decision; every other node is
 skipped.
 */
module Evaluation {
  import opened Sorting
  import opened Graphs
  import opened Dags
  import opened Wrappers

  datatype Attempt = Output(text: string) | Error

  datatype Decision = Approve(comment: string) | Reject

  datatype Conclusion = Succeeded(output: string) | Failed | Skipped

  /** A task: the graph, the task input, and the deterministic behaviour of nodes and approvers. */
  datatype Task = Task(dag: Dag, input: string, exec: (Key, string, nat) -> Attempt, decide: Key -> Decision) {
    ghost function Graph(): Graph { DagGraph(dag) }

    ghost predicate Valid() { WellFormed(dag) }

    predicate IsApproval(k: Key) {
      k in dag.nodes && dag.nodes[k].nodeType == "approval"
    }

    function MaxRetry(k: Key): int {
      if k in dag.nodes then dag.nodes[k].maxRetry else 0
    }
  }

  predicate ShouldRetry(maxRetry: int, retries: nat) {
    maxRetry > 0 && retries < maxRetry
  }

  // ---------- Node inputs ----------

  function OutputOf(results: map<Key, string>, k: Key): string {
    if k in results then results[k] else ""
  }

  /** The labelled outputs of several predecessors; empty outputs are left out. */
  function Parts(inputs: seq<Key>, results: map<Key, string>): seq<string> {
    if inputs == [] then []
    else
      var last := inputs[|inputs| - 1];
      var v := OutputOf(results, last);
      Parts(inputs[..|inputs| - 1], results) + if v == "" then [] else ["\U{3010}" + last + "\U{3011}\n" + v]
  }

  ghost function InputFrom(d: Dag, k: Key, inputs: seq<Key>, results: map<Key, string>, taskInput: string): string {
    if (k in d.nodes && d.nodes[k].nodeType == "input") || inputs == [] then taskInput
    else if |inputs| == 1 then
      (if OutputOf(results, inputs[0]) == "" then taskInput else results[inputs[0]])
    else if Parts(inputs, results) == [] then taskInput
    else Join(Parts(inputs, results), "\n\n")
  }

  /** The input of node `k` given the outputs so far. */
  ghost function AssembledInput(d: Dag, k: Key, results: map<Key, string>, taskInput: string): string {
    InputFrom(d, k, InputKeys(d, k), results, taskInput)
  }

  /** The outputs of the keys, one after the other, each under its label and with a blank line between. */
  ghost predicate Labelled(order: seq<Key>, results: map<Key, string>, text: string) {
    exists parts: seq<string> ::
      && |parts| == |order| && text == Join(parts, "\n\n")
      && forall i :: 0 <= i < |order| ==>
           order[i] in results && parts[i] == "\U{3010}" + order[i] + "\U{3011}\n" + results[order[i]]
  }

  /** The predecessors that have something to say. */
  ghost function Speakers(d: Dag, k: Key, results: map<Key, string>): set<Key> {
    set s | s in Preds(DagGraph(d), k) && s in results && results[s] != ""
  }

  /** What a node is given: the task input, its only predecessor's output, or the labelled outputs of several. */
  ghost predicate IsInput(d: Dag, k: Key, results: map<Key, string>, taskInput: string, r: string)
    requires k in d.nodes
  {
    var preds, speakers := Preds(DagGraph(d), k), Speakers(d, k, results);
    && (d.nodes[k].nodeType == "input" || speakers == {} ==> r == taskInput)
    && (d.nodes[k].nodeType != "input" ==>
         && (forall s :: preds == {s} && s in speakers ==> r == results[s])
         && (|preds| > 1 && speakers != {} ==> exists order ::
              Sorted(order) && Distinct(order) && Elems(order) == speakers && Labelled(order, results, r)))
  }

  method AssembleInput(d: Dag, key: Key, results: map<Key, string>, taskInput: string) returns (r: string)
    requires key in d.nodes && forall s :: s in d.edges ==> Distinct(d.edges[s])
    ensures r == AssembledInput(d, key, results, taskInput)
  {
    if d.nodes[key].nodeType == "input" {
      return taskInput;
    }
    var inputs := InputsOf(d, key);
    if |inputs| == 0 {
      return taskInput;
    }
    if |inputs| == 1 {
      if inputs[0] in results && results[inputs[0]] != "" {
        return results[inputs[0]];
      }
      return taskInput;
    }
    var parts: seq<string> := [];
    for i := 0 to |inputs|
      invariant parts == Parts(inputs[..i], results)
    {
      assert inputs[..i + 1][..i] == inputs[..i];
      var v := OutputOf(results, inputs[i]);
      if v != "" {
        parts := parts + ["\U{3010}" + inputs[i] + "\U{3011}\n" + v];
      }
    }
    assert inputs[..|inputs|] == inputs;
    if |parts| == 0 {
      return taskInput;
    }
    r := Join(parts, "\n\n");
  }

  lemma {:induction false} PartsAgree(inputs: seq<Key>, r1: map<Key, string>, r2: map<Key, string>)
    requires forall s :: s in inputs ==> OutputOf(r1, s) == OutputOf(r2, s)
    ensures Parts(inputs, r1) == Parts(inputs, r2)
  {
    if inputs != [] {
      PartsAgree(inputs[..|inputs| - 1], r1, r2);
    }
  }

  lemma InputKeysArePreds(d: Dag, k: Key)
    requires WellFormed(d)
    ensures InputKeys(d, k) == SortedKeys(Preds(DagGraph(d), k))
    ensures forall s :: s in InputKeys(d, k) ==> s in Preds(DagGraph(d), k)
  {
    var g := DagGraph(d);
    forall s ensures s in Preds(g, k) <==> s in d.edges && k in d.edges[s] {
      assert k in Succs(d.edges, s) <==> (s, k) in g.edges;
    }
    assert Preds(g, k) == set s | s in d.edges && k in d.edges[s];
    forall s | s in InputKeys(d, k) ensures s in Preds(g, k) {
      assert s in Elems(InputKeys(d, k));
    }
  }

  /** The input of a node is fixed once its predecessors are: later outputs of other nodes do not change it. */
  lemma InputFixedByPreds(d: Dag, k: Key, r1: map<Key, string>, r2: map<Key, string>, taskInput: string)
    requires WellFormed(d) && k in d.nodes
    requires forall s :: s in Preds(DagGraph(d), k) ==> s in r1 && s in r2 && r1[s] == r2[s]
    ensures AssembledInput(d, k, r1, taskInput) == AssembledInput(d, k, r2, taskInput)
  {
    InputKeysArePreds(d, k);
    PartsAgree(InputKeys(d, k), r1, r2);
  }

  /** The inputs with an output, in the same order. */
  ghost function Speaking(inputs: seq<Key>, results: map<Key, string>): seq<Key> {
    if inputs == [] then []
    else
      var last := inputs[|inputs| - 1];
      Speaking(inputs[..|inputs| - 1], results) + if OutputOf(results, last) == "" then [] else [last]
  }

  lemma {:induction false} SpeakingElems(inputs: seq<Key>, results: map<Key, string>)
    ensures forall s :: s in Speaking(inputs, results) <==> s in inputs && OutputOf(results, s) != ""
  {
    if inputs != [] {
      SpeakingElems(inputs[..|inputs| - 1], results);
      assert inputs == inputs[..|inputs| - 1] + [inputs[|inputs| - 1]];
    }
  }

  lemma SnocSorted(init: seq<Key>, last: Key, r: seq<Key>)
    requires Sorted(init + [last]) && Distinct(init + [last]) && Sorted(r) && Distinct(r)
    requires forall s :: s in r ==> s in init
    ensures Sorted(r + [last]) && Distinct(r + [last])
  {
    forall i | 0 <= i < |r| ensures Leq(r[i], last) && r[i] != last {
      assert r[i] in init;
      var j :| 0 <= j < |init| && init[j] == r[i];
      assert (init + [last])[j] == r[i] && (init + [last])[|init|] == last;
    }
  }

  lemma {:induction false} SpeakingSorted(inputs: seq<Key>, results: map<Key, string>)
    requires Sorted(inputs) && Distinct(inputs)
    ensures Sorted(Speaking(inputs, results)) && Distinct(Speaking(inputs, results))
  {
    if inputs != [] {
      var init, last := inputs[..|inputs| - 1], inputs[|inputs| - 1];
      assert inputs == init + [last];
      SpeakingSorted(init, results);
      SpeakingElems(init, results);
      SnocSorted(init, last, Speaking(init, results));
      assert Speaking(init, results) + [] == Speaking(init, results);
    }
  }

  lemma {:induction false} PartsSpeak(inputs: seq<Key>, results: map<Key, string>)
    ensures |Parts(inputs, results)| == |Speaking(inputs, results)|
    ensures forall i :: 0 <= i < |Parts(inputs, results)| ==>
      var s := Speaking(inputs, results)[i];
      s in results && Parts(inputs, results)[i] == "\U{3010}" + s + "\U{3011}\n" + results[s]
  {
    if inputs != [] {
      PartsSpeak(inputs[..|inputs| - 1], results);
    }
  }

  lemma PartsLabelled(inputs: seq<Key>, results: map<Key, string>)
    ensures Labelled(Speaking(inputs, results), results, Join(Parts(inputs, results), "\n\n"))
    ensures |Parts(inputs, results)| == |Speaking(inputs, results)|
  {
    PartsSpeak(inputs, results);
    hide Parts, Speaking;
  }

  lemma InputCount(d: Dag, k: Key)
    requires WellFormed(d)
    ensures |InputKeys(d, k)| == |Preds(DagGraph(d), k)|
    ensures forall s :: s in InputKeys(d, k) <==> s in Preds(DagGraph(d), k)
    ensures Sorted(InputKeys(d, k)) && Distinct(InputKeys(d, k))
  {
    InputKeysArePreds(d, k);
    DistinctCard(InputKeys(d, k));
    SortedKeysSorted(Preds(DagGraph(d), k));
    assert forall s :: s in InputKeys(d, k) <==> s in Elems(InputKeys(d, k));
  }

  lemma SpeakersOf(d: Dag, k: Key, results: map<Key, string>)
    requires forall s :: s in InputKeys(d, k) <==> s in Preds(DagGraph(d), k)
    ensures Elems(Speaking(InputKeys(d, k), results)) == Speakers(d, k, results)
  {
    var inputs, order := InputKeys(d, k), Speaking(InputKeys(d, k), results);
    SpeakingElems(inputs, results);
    assert forall s :: s in Speakers(d, k, results) <==> s in inputs && OutputOf(results, s) != "";
    hide InputKeys, Speaking, Preds, Speakers;
  }

  lemma ManyIsInput(d: Dag, k: Key, results: map<Key, string>, taskInput: string, order: seq<Key>, r: string)
    requires k in d.nodes && d.nodes[k].nodeType != "input" && |Preds(DagGraph(d), k)| > 1
    requires Sorted(order) && Distinct(order) && Elems(order) == Speakers(d, k, results)
    requires if order == [] then r == taskInput else Labelled(order, results, r)
    ensures IsInput(d, k, results, taskInput, r)
  {
    hide Sorted, Distinct, Labelled, Preds, DagGraph, Speakers;
    assert forall s :: Preds(DagGraph(d), k) == {s} ==> |Preds(DagGraph(d), k)| == 1;
    assert order != [] ==> order[0] in Elems(order);
  }

  lemma ManyInputs(d: Dag, k: Key, inputs: seq<Key>, results: map<Key, string>, taskInput: string)
    requires k in d.nodes && d.nodes[k].nodeType != "input" && |inputs| > 1
    ensures InputFrom(d, k, inputs, results, taskInput) ==
      if Parts(inputs, results) == [] then taskInput else Join(Parts(inputs, results), "\n\n")
  {
  }

  lemma FewInputs(d: Dag, k: Key, results: map<Key, string>, taskInput: string)
    requires k in d.nodes && (d.nodes[k].nodeType == "input" || |InputKeys(d, k)| <= 1)
    requires |InputKeys(d, k)| == |Preds(DagGraph(d), k)|
    requires forall s :: s in InputKeys(d, k) <==> s in Preds(DagGraph(d), k)
    ensures IsInput(d, k, results, taskInput, AssembledInput(d, k, results, taskInput))
  {
    var inputs := InputKeys(d, k);
    assert |inputs| == 1 ==> inputs[0] in inputs && forall s :: s in inputs ==> s == inputs[0];
    hide InputKeys, Preds, DagGraph, Parts;
  }

  /** The assembled input is what a node is to be given. */
  lemma AssembledIsInput(d: Dag, k: Key, results: map<Key, string>, taskInput: string)
    requires WellFormed(d) && k in d.nodes
    ensures IsInput(d, k, results, taskInput, AssembledInput(d, k, results, taskInput))
  {
    var inputs := InputKeys(d, k);
    assert AssembledInput(d, k, results, taskInput) == InputFrom(d, k, inputs, results, taskInput);
    hide *;
    InputCount(d, k);
    if d.nodes[k].nodeType == "input" || |inputs| <= 1 {
      FewInputs(d, k, results, taskInput);
    } else {
      ManyInputs(d, k, inputs, results, taskInput);
      SpeakingSorted(inputs, results);
      SpeakersOf(d, k, results);
      PartsLabelled(inputs, results);
      ManyIsInput(d, k, results, taskInput, Speaking(inputs, results), AssembledInput(d, k, results, taskInput));
    }
  }

  // ---------- One node ----------

  /** The conclusion of a node whose attempts number `n` and later are still to be made. */
  function Attempts(t: Task, k: Key, input: string, n: nat): Conclusion
    decreases t.MaxRetry(k) - n
  {
    match t.exec(k, input, n)
    case Output(o) => Succeeded(o)
    case Error => if ShouldRetry(t.MaxRetry(k), n) then Attempts(t, k, input, n + 1) else Failed
  }

  function Decided(d: Decision): Conclusion {
    match d
    case Approve(comment) => Succeeded("approved: " + comment)
    case Reject => Failed
  }

  function Executed(t: Task, k: Key, input: string): Conclusion {
    if t.IsApproval(k) then Decided(t.decide(k)) else Attempts(t, k, input, 0)
  }

  // ---------- The whole workflow ----------

  function Outputs(c: map<Key, Conclusion>): map<Key, string> {
    map k | k in c && c[k].Succeeded? :: c[k].output
  }

  ghost function Conclude(t: Task, c: map<Key, Conclusion>, k: Key): Conclusion {
    if Preds(t.Graph(), k) <= Outputs(c).Keys
    then Executed(t, k, AssembledInput(t.dag, k, Outputs(c), t.input))
    else Skipped
  }

  /** The conclusions of the first `n` nodes of the topological order. */
  ghost function Eval(t: Task, n: nat): map<Key, Conclusion>
    requires n <= |t.dag.order|
  {
    if n == 0 then map[]
    else
      var c := Eval(t, n - 1);
      c[t.dag.order[n - 1] := Conclude(t, c, t.dag.order[n - 1])]
  }

  lemma {:induction false} EvalKeys(t: Task, n: nat)
    requires n <= |t.dag.order|
    ensures Eval(t, n).Keys == Elems(t.dag.order[..n])
  {
    if n > 0 {
      EvalKeys(t, n - 1);
      assert t.dag.order[..n] == t.dag.order[..n - 1] + [t.dag.order[n - 1]];
      ElemsSnoc(t.dag.order[..n - 1], t.dag.order[n - 1]);
    }
  }

  ghost function Ref(t: Task): (c: map<Key, Conclusion>)
    requires t.Valid()
    ensures c.Keys == t.dag.nodes.Keys
  {
    assert t.dag.order[..|t.dag.order|] == t.dag.order;
    EvalKeys(t, |t.dag.order|);
    Eval(t, |t.dag.order|)
  }

  lemma EvalStep(t: Task, n: nat, k: Key)
    requires t.Valid() && n < |t.dag.order| && k in Eval(t, n)
    ensures k in Eval(t, n + 1) && Eval(t, n + 1)[k] == Eval(t, n)[k]
  {
    EvalKeys(t, n);
    assert k in t.dag.order[..n] && Distinct(t.dag.order);
  }

  /** Later nodes do not change what is already concluded. */
  lemma {:induction false} EvalStable(t: Task, n: nat, m: nat, k: Key)
    requires t.Valid() && n <= m <= |t.dag.order| && k in Eval(t, n)
    ensures k in Eval(t, m) && Eval(t, m)[k] == Eval(t, n)[k]
    decreases m - n
  {
    hide *;
    if n < m {
      EvalStep(t, n, k);
      EvalStable(t, n + 1, m, k);
    }
  }

  lemma ConcludeSame(t: Task, c1: map<Key, Conclusion>, c2: map<Key, Conclusion>, k: Key)
    requires t.Valid() && k in t.dag.nodes
    requires forall s :: s in Preds(t.Graph(), k) ==> s in c1 && s in c2 && c1[s] == c2[s]
    ensures Conclude(t, c1, k) == Conclude(t, c2, k)
  {
    if Preds(t.Graph(), k) <= Outputs(c1).Keys {
      InputFixedByPreds(t.dag, k, Outputs(c1), Outputs(c2), t.input);
    }
  }

  /** Position `i` of the order concludes from what comes before it, and that conclusion stays. */
  lemma RefAt(t: Task, i: nat)
    requires t.Valid() && i < |t.dag.order|
    ensures var k := t.dag.order[i];
      k in Ref(t) && Ref(t)[k] == Conclude(t, Eval(t, i), k)
  {
    assert Eval(t, i + 1)[t.dag.order[i]] == Conclude(t, Eval(t, i), t.dag.order[i]);
    hide Conclude;
    EvalStable(t, i + 1, |t.dag.order|, t.dag.order[i]);
  }

  lemma PredEvaluated(t: Task, i: nat, s: Key)
    requires t.Valid() && i < |t.dag.order| && s in Preds(t.Graph(), t.dag.order[i])
    ensures s in Eval(t, i) && s in Ref(t) && Eval(t, i)[s] == Ref(t)[s]
  {
    assert (s, t.dag.order[i]) in t.Graph().edges;
    assert s in Elems(t.dag.order[..i]);
    EvalKeys(t, i);
    hide Conclude, WellFormed;
    EvalStable(t, i, |t.dag.order|, s);
  }

  /** `Ref` satisfies its own equation at every node. */
  lemma RefEquation(t: Task, k: Key)
    requires t.Valid() && k in t.dag.nodes
    ensures Ref(t)[k] == Conclude(t, Ref(t), k)
  {
    assert k in Elems(t.dag.order);
    var i :| 0 <= i < |t.dag.order| && t.dag.order[i] == k;
    hide *;
    RefAt(t, i);
    forall s | s in Preds(t.Graph(), k) ensures s in Eval(t, i) && s in Ref(t) && Eval(t, i)[s] == Ref(t)[s] {
      PredEvaluated(t, i, s);
    }
    ConcludeSame(t, Eval(t, i), Ref(t), k);
  }

  ghost function RefOf(t: Task, k: Key): Conclusion {
    if t.Valid() && k in t.dag.nodes then Ref(t)[k] else Skipped
  }

  /** The input on which node `k` runs. */
  ghost function RefInput(t: Task, k: Key): string {
    if t.Valid() then AssembledInput(t.dag, k, Outputs(Ref(t)), t.input) else ""
  }

  lemma RefRuns(t: Task, k: Key)
    requires t.Valid() && k in t.dag.nodes
    requires Preds(t.Graph(), k) <= Outputs(Ref(t)).Keys
    ensures Ref(t)[k] == Executed(t, k, RefInput(t, k))
    ensures !Ref(t)[k].Skipped?
  {
    RefEquation(t, k);
    AttemptsConclude(t, k, RefInput(t, k), 0);
  }

  lemma {:induction false} AttemptsConclude(t: Task, k: Key, input: string, n: nat)
    ensures !Attempts(t, k, input, n).Skipped?
    decreases t.MaxRetry(k) - n
  {
    if t.exec(k, input, n).Error? && ShouldRetry(t.MaxRetry(k), n) {
      AttemptsConclude(t, k, input, n + 1);
    }
  }

  lemma RefSkips(t: Task, p: Key, k: Key)
    requires t.Valid() && k in t.dag.nodes && p in Preds(t.Graph(), k) && !Ref(t)[p].Succeeded?
    ensures Ref(t)[k] == Skipped
  {
    RefEquation(t, k);
  }

  /** A node without a result skips everything downstream of it. */
  lemma RefSkipsDownstream(t: Task, a: Key)
    requires t.Valid() && a in t.dag.nodes && !Ref(t)[a].Succeeded?
    ensures forall b :: Reaches(t.Graph(), a, b) ==> b in t.dag.nodes && Ref(t)[b] == Skipped
  {
    var g, ref := t.Graph(), Ref(t);
    var skipped := set k | k in t.dag.nodes && ref[k] == Skipped;
    forall s, b | (s, b) in g.edges && (s == a || s in skipped) ensures b in skipped {
      RefSkips(t, s, b);
    }
    ClosedUnderEdges(g, a, skipped);
  }

  lemma {:induction false} SkippedHasFailedAncestor(t: Task, i: nat)
    requires t.Valid() && i < |t.dag.order| && t.dag.order[i] in Ref(t) && Ref(t)[t.dag.order[i]] == Skipped
    ensures exists a :: Reaches(t.Graph(), a, t.dag.order[i]) && a in t.dag.nodes && Ref(t)[a] == Failed
    decreases i
  {
    var g, k := t.Graph(), t.dag.order[i];
    RefEquation(t, k);
    if Preds(g, k) <= Outputs(Ref(t)).Keys { RefRuns(t, k); }
    var s :| s in Preds(g, k) && s !in Outputs(Ref(t)).Keys;
    EdgeReaches(g, s, k);
    if Ref(t)[s] != Failed {
      assert s in t.dag.order[..i];
      var j :| 0 <= j < i && t.dag.order[j] == s;
      SkippedHasFailedAncestor(t, j);
      var a :| Reaches(g, a, s) && a in t.dag.nodes && Ref(t)[a] == Failed;
      ReachesTransitive(g, a, s, k);
    }
  }

  /** Failure propagation: a node is skipped exactly when some node upstream of it failed. */
  lemma SkippedIffAncestorFailed(t: Task, k: Key)
    requires t.Valid() && k in t.dag.nodes
    ensures Ref(t)[k] == Skipped <==> exists a :: Reaches(t.Graph(), a, k) && a in t.dag.nodes && Ref(t)[a] == Failed
  {
    if Ref(t)[k] == Skipped {
      assert k in Elems(t.dag.order);
      var i :| 0 <= i < |t.dag.order| && t.dag.order[i] == k;
      SkippedHasFailedAncestor(t, i);
    }
    forall a | Reaches(t.Graph(), a, k) && a in t.dag.nodes && Ref(t)[a] == Failed ensures Ref(t)[k] == Skipped {
      RefSkipsDownstream(t, a);
    }
  }

  // ---------- The task output ----------

  /** The last output node with a result, else the last node with a result, else nothing. */
  function TaskOutput(d: Dag, results: map<Key, string>): string {
    var outputs := set k | k in results && k in d.nodes && d.nodes[k].nodeType == "output";
    var i := LastAmong(d.order, outputs, |d.order|);
    var j := LastAmong(d.order, results.Keys, |d.order|);
    if i >= 0 then results[d.order[i]] else if j >= 0 then results[d.order[j]] else ""
  }

  /** Position `i` holds an output node with a result. */
  ghost predicate AnswersAt(d: Dag, results: map<Key, string>, i: int) {
    && 0 <= i < |d.order| && d.order[i] in results
    && d.order[i] in d.nodes && d.nodes[d.order[i]].nodeType == "output"
  }

  ghost predicate HasResultAt(d: Dag, results: map<Key, string>, i: int) {
    0 <= i < |d.order| && d.order[i] in results
  }

  ghost predicate LastAnswer(d: Dag, results: map<Key, string>, i: int) {
    AnswersAt(d, results, i) && forall j :: j > i ==> !AnswersAt(d, results, j)
  }

  ghost predicate LastResult(d: Dag, results: map<Key, string>, i: int) {
    HasResultAt(d, results, i) && forall j :: j > i ==> !HasResultAt(d, results, j)
  }

  ghost predicate NoAnswer(d: Dag, results: map<Key, string>) {
    forall i :: !AnswersAt(d, results, i)
  }

  /** An output node's result comes before any other, a later one before an earlier one. */
  lemma TaskOutputIs(d: Dag, results: map<Key, string>)
    ensures forall i :: LastAnswer(d, results, i) ==> TaskOutput(d, results) == results[d.order[i]]
    ensures forall i :: NoAnswer(d, results) && LastResult(d, results, i) ==>
      TaskOutput(d, results) == results[d.order[i]]
    ensures (forall i :: !HasResultAt(d, results, i)) ==> TaskOutput(d, results) == ""
  {
    var outputs := set k | k in results && k in d.nodes && d.nodes[k].nodeType == "output";
    var n := |d.order|;
    var last, any := LastAmong(d.order, outputs, n), LastAmong(d.order, results.Keys, n);
    assert forall i :: AnswersAt(d, results, i) <==> 0 <= i < n && d.order[i] in outputs;
    assert last >= 0 ==> AnswersAt(d, results, last);
    assert any >= 0 ==> HasResultAt(d, results, any);
    hide LastAmong;
  }

  method FinalOutput(d: Dag, results: map<Key, string>) returns (r: string)
    requires forall k :: k in d.order ==> k in d.nodes
    ensures r == TaskOutput(d, results)
    ensures forall i :: LastAnswer(d, results, i) ==> r == results[d.order[i]]
    ensures forall i :: NoAnswer(d, results) && LastResult(d, results, i) ==> r == results[d.order[i]]
    ensures (forall i :: !HasResultAt(d, results, i)) ==> r == ""
  {
    TaskOutputIs(d, results);
    hide LastAnswer, LastResult, NoAnswer, HasResultAt;
    ghost var outputs := set k | k in results && k in d.nodes && d.nodes[k].nodeType == "output";
    var n := |d.order|;
    for i := n downto 0
      invariant LastAmong(d.order, outputs, n) == LastAmong(d.order, outputs, i)
    {
      var key := d.order[i];
      if d.nodes[key].nodeType == "output" && key in results {
        return results[key];
      }
    }
    for i := n downto 0
      invariant LastAmong(d.order, results.Keys, n) == LastAmong(d.order, results.Keys, i)
    {
      if d.order[i] in results {
        return results[d.order[i]];
      }
    }
    r := "";
  }
}
