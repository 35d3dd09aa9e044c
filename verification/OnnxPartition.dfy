/** Splitting an ordered ONNX graph into supported subgraphs
    (`supportsModel`, 3rdparty/onnx-tensorrt/ModelImporter.cpp). */
module OnnxPartition {
  import opened OnnxOrder
  import opened Wrappers

  /** What parsing the model has left behind: its verdict, the failing node or input, loop
      tensors by name, and shape tensors it could not compute. */
  datatype ParseInfo = ParseInfo(
    parsed: bool, registered: set<string>, errorNode: int, inputNode: string,
    loopTensors: map<string, string>, unsupportedShapes: set<string>)

  datatype SubGraph = SubGraph(nodes: seq<nat>, supported: bool)

  /** Looking up a missing loop tensor gives the empty name. */
  function LoopName(info: ParseInfo): string
  {
    if info.inputNode in info.loopTensors then info.loopTensors[info.inputNode] else ""
  }

  ghost predicate UsesInput(info: ParseInfo, node: NodeProto)
  {
    exists k :: 0 <= k < |node.inputs| && (node.inputs[k] == info.inputNode || node.inputs[k] == LoopName(info))
  }

  method CheckForInput(info: ParseInfo, node: NodeProto) returns (found: bool)
    ensures found <==> UsesInput(info, node)
  {
    for k := 0 to |node.inputs|
      invariant forall m :: 0 <= m < k ==> node.inputs[m] != info.inputNode && node.inputs[m] != LoopName(info)
    {
      if info.inputNode == node.inputs[k] || LoopName(info) == node.inputs[k] {
        return true;
      }
    }
    return false;
  }

  ghost predicate Supported(info: ParseInfo, nodes: seq<NodeProto>, i: int)
  {
    && 0 <= i < |nodes| && nodes[i].outputs != []
    && nodes[i].opType in info.registered
    && !(info.inputNode != "" && UsesInput(info, nodes[i]))
    && i != info.errorNode
    && nodes[i].outputs[0] !in info.unsupportedShapes
  }

  method CheckNode(info: ParseInfo, nodes: seq<NodeProto>, i: nat) returns (ok: bool)
    requires i < |nodes| && nodes[i].outputs != []
    ensures ok <==> Supported(info, nodes, i)
    ensures ok <==>
      && nodes[i].opType in info.registered && i != info.errorNode && nodes[i].outputs[0] !in info.unsupportedShapes
      && (info.inputNode != "" ==> info.inputNode !in nodes[i].inputs)
      && (info.inputNode != "" && info.inputNode in info.loopTensors ==>
            info.loopTensors[info.inputNode] !in nodes[i].inputs)
      && (info.inputNode != "" && info.inputNode !in info.loopTensors ==> "" !in nodes[i].inputs)
  {
    var containsInput := false;
    if info.inputNode != "" {
      containsInput := CheckForInput(info, nodes[i]);
    }
    ok := nodes[i].opType in info.registered && !containsInput && i != info.errorNode &&
      nodes[i].outputs[0] !in info.unsupportedShapes;
  }

  // ----- maximal runs -----

  ghost predicate IsRun(order: seq<nat>, sup: set<nat>, run: seq<nat>, start: nat)
  {
    var end := start + |run|;
    && run != [] && end <= |order|
    && (forall k :: 0 <= k < |run| ==> run[k] == order[start + k] && run[k] in sup)
    && (start > 0 ==> order[start - 1] !in sup)
    && (end < |order| ==> order[end] !in sup)
  }

  ghost predicate Within(start: nat, run: seq<nat>, k: int)
  {
    start <= k < start + |run|
  }

  /** The runs are exactly the maximal supported stretches of the order, from left to right. */
  ghost predicate AreRuns(order: seq<nat>, sup: set<nat>, runs: seq<seq<nat>>, starts: seq<nat>)
  {
    && |starts| == |runs|
    && (forall r :: 0 <= r < |runs| ==> IsRun(order, sup, runs[r], starts[r]))
    && (forall q, r :: 0 <= q < r < |runs| ==> starts[q] + |runs[q]| < starts[r])
    && forall k :: 0 <= k < |order| ==> Covered(order, sup, runs, starts, k)
  }

  ghost predicate Covered(order: seq<nat>, sup: set<nat>, runs: seq<seq<nat>>, starts: seq<nat>, k: int)
    requires |starts| == |runs| && 0 <= k < |order|
  {
    order[k] in sup ==> exists r :: 0 <= r < |runs| && Within(starts[r], runs[r], k)
  }

  ghost function Keep(order: seq<nat>, sup: set<nat>): seq<nat>
  {
    if order == [] then [] else
      Keep(order[..|order| - 1], sup) + (if order[|order| - 1] in sup then [order[|order| - 1]] else [])
  }

  ghost function Concat(runs: seq<seq<nat>>): seq<nat>
  {
    if runs == [] then [] else Concat(runs[..|runs| - 1]) + runs[|runs| - 1]
  }

  /** The runs found in `order`, and whether the next supported node opens a new one. */
  ghost predicate Found(order: seq<nat>, sup: set<nat>, runs: seq<seq<nat>>, starts: seq<nat>, open: bool)
  {
    && AreRuns(order, sup, runs, starts)
    && (open <==> order == [] || order[|order| - 1] !in sup)
    && Concat(runs) == Keep(order, sup)
  }

  lemma RunStays(order: seq<nat>, x: nat, sup: set<nat>, run: seq<nat>, start: nat)
    requires IsRun(order, sup, run, start) && (start + |run| < |order| || x !in sup)
    ensures IsRun(order + [x], sup, run, start)
  {
  }

  lemma RunGrows(order: seq<nat>, x: nat, sup: set<nat>, run: seq<nat>, start: nat)
    requires IsRun(order, sup, run, start) && start + |run| == |order| && x in sup
    ensures IsRun(order + [x], sup, run + [x], start)
  {
    var longer, run' := order + [x], run + [x];
    forall k | 0 <= k < |run'|
      ensures run'[k] == longer[start + k] && run'[k] in sup
    {
      if k < |run| { assert run[k] == order[start + k]; }
    }
  }

  lemma KeepAppend(order: seq<nat>, x: nat, sup: set<nat>)
    ensures Keep(order + [x], sup) == Keep(order, sup) + (if x in sup then [x] else [])
  {
    assert (order + [x])[..|order|] == order;
  }

  lemma ConcatAppend(runs: seq<seq<nat>>, run: seq<nat>)
    ensures Concat(runs + [run]) == Concat(runs) + run
  {
    assert (runs + [run])[..|runs|] == runs;
  }

  lemma SkipNode(order: seq<nat>, x: nat, sup: set<nat>, runs: seq<seq<nat>>, starts: seq<nat>, open: bool)
    requires Found(order, sup, runs, starts, open) && x !in sup
    ensures Found(order + [x], sup, runs, starts, true)
  {
    KeepAppend(order, x, sup);
    forall r | 0 <= r < |runs|
      ensures IsRun(order + [x], sup, runs[r], starts[r])
    {
      RunStays(order, x, sup, runs[r], starts[r]);
    }
    forall k | 0 <= k < |order| + 1
      ensures Covered(order + [x], sup, runs, starts, k)
    {
      if k < |order| { assert Covered(order, sup, runs, starts, k); }
    }
  }

  /** A run never reaches the end when the last node is not supported. */
  lemma EndsBefore(order: seq<nat>, sup: set<nat>, run: seq<nat>, start: nat)
    requires IsRun(order, sup, run, start) && order[|order| - 1] !in sup
    ensures start + |run| < |order|
  {
    assert run[|run| - 1] == order[start + (|run| - 1)];
  }

  lemma OpenRun(order: seq<nat>, x: nat, sup: set<nat>, runs: seq<seq<nat>>, starts: seq<nat>)
    requires Found(order, sup, runs, starts, true) && x in sup
    ensures Found(order + [x], sup, runs + [[x]], starts + [|order|], false)
  {
    KeepAppend(order, x, sup);
    ConcatAppend(runs, [x]);
    OpenRunCovers(order, x, sup, runs, starts);
  }

  lemma OpenRunCovers(order: seq<nat>, x: nat, sup: set<nat>, runs: seq<seq<nat>>, starts: seq<nat>)
    requires AreRuns(order, sup, runs, starts) && x in sup && (order != [] ==> order[|order| - 1] !in sup)
    ensures AreRuns(order + [x], sup, runs + [[x]], starts + [|order|])
  {
    var longer, runs', starts' := order + [x], runs + [[x]], starts + [|order|];
    forall r | 0 <= r < |runs|
      ensures IsRun(longer, sup, runs'[r], starts'[r]) && starts[r] + |runs[r]| < |order|
    {
      EndsBefore(order, sup, runs[r], starts[r]);
      RunStays(order, x, sup, runs[r], starts[r]);
    }
    assert IsRun(longer, sup, runs'[|runs|], starts'[|runs|]);
    forall k | 0 <= k < |longer| && longer[k] in sup
      ensures Covered(longer, sup, runs', starts', k)
    {
      if k < |order| {
        assert Covered(order, sup, runs, starts, k);
        var r :| 0 <= r < |runs| && Within(starts[r], runs[r], k);
        assert Within(starts'[r], runs'[r], k);
      } else {
        assert Within(starts'[|runs|], runs'[|runs|], k);
      }
    }
  }

  /** The last run reaches the end when the last node is supported. */
  lemma LastReachesEnd(order: seq<nat>, sup: set<nat>, runs: seq<seq<nat>>, starts: seq<nat>)
    requires AreRuns(order, sup, runs, starts) && order != [] && order[|order| - 1] in sup
    ensures runs != [] && starts[|runs| - 1] + |runs[|runs| - 1]| == |order|
  {
    assert Covered(order, sup, runs, starts, |order| - 1);
    var r :| 0 <= r < |runs| && Within(starts[r], runs[r], |order| - 1);
    assert IsRun(order, sup, runs[r], starts[r]);
    var last := |runs| - 1;
    assert IsRun(order, sup, runs[last], starts[last]);
  }

  lemma ExtendRun(order: seq<nat>, x: nat, sup: set<nat>, front: seq<seq<nat>>, last: seq<nat>, starts: seq<nat>)
    requires Found(order, sup, front + [last], starts, false) && x in sup
    ensures Found(order + [x], sup, front + [last + [x]], starts, false)
  {
    LastReachesEnd(order, sup, front + [last], starts);
    ExtendRunCovers(order, x, sup, front + [last], starts, front + [last + [x]]);
    KeepAppend(order, x, sup);
    ConcatAppend(front, last);
    ConcatAppend(front, last + [x]);
    assert Concat(front) + (last + [x]) == (Concat(front) + last) + [x];
  }

  lemma ExtendRunCovers(order: seq<nat>, x: nat, sup: set<nat>, runs: seq<seq<nat>>, starts: seq<nat>,
      runs': seq<seq<nat>>)
    requires AreRuns(order, sup, runs, starts) && x in sup && runs != [] && |runs'| == |runs|
    requires starts[|runs| - 1] + |runs[|runs| - 1]| == |order|
    requires forall r :: 0 <= r < |runs| - 1 ==> runs'[r] == runs[r]
    requires runs'[|runs| - 1] == runs[|runs| - 1] + [x]
    ensures AreRuns(order + [x], sup, runs', starts)
  {
    var last := |runs| - 1;
    var longer := order + [x];
    RunGrows(order, x, sup, runs[last], starts[last]);
    forall r | 0 <= r < last
      ensures IsRun(longer, sup, runs'[r], starts[r])
    {
      assert starts[r] + |runs[r]| < starts[last];
      RunStays(order, x, sup, runs[r], starts[r]);
    }
    forall k | 0 <= k < |longer| && longer[k] in sup
      ensures Covered(longer, sup, runs', starts, k)
    {
      if k < |order| {
        assert Covered(order, sup, runs, starts, k);
        var r :| 0 <= r < |runs| && Within(starts[r], runs[r], k);
        assert Within(starts[r], runs'[r], k);
      } else {
        assert Within(starts[last], runs'[last], k);
      }
    }
  }

  // ----- the partition loop -----

  ghost function SupportedSet(info: ParseInfo, nodes: seq<NodeProto>): set<nat>
  {
    set i | 0 <= i < |nodes| && Supported(info, nodes, i)
  }

  /** The collection after the loop: new subgraphs behind the ones given. */
  ghost predicate Collected(before: seq<SubGraph>, runs: seq<seq<nat>>, collection: seq<SubGraph>)
  {
    && |collection| == |before| + |runs|
    && (forall i :: 0 <= i < |before| ==> collection[i] == before[i])
    && forall r :: 0 <= r < |runs| ==> collection[|before| + r] == SubGraph(runs[r], false)
  }

  lemma CollectedOpen(before: seq<SubGraph>, runs: seq<seq<nat>>, collection: seq<SubGraph>, x: nat)
    requires Collected(before, runs, collection)
    ensures Collected(before, runs + [[x]], collection + [SubGraph([x], false)])
  {
  }

  lemma CollectedExtend(before: seq<SubGraph>, front: seq<seq<nat>>, last: seq<nat>, collection: seq<SubGraph>, x: nat)
    requires Collected(before, front + [last], collection)
    ensures collection[|collection| - 1] == SubGraph(last, false)
    ensures Collected(before, front + [last + [x]], collection[|collection| - 1 := SubGraph(last + [x], false)])
  {
    assert (front + [last])[|front|] == last;
    var longer := collection[|collection| - 1 := SubGraph(last + [x], false)];
    forall r | 0 <= r < |front| + 1
      ensures longer[|before| + r] == SubGraph((front + [last + [x]])[r], false)
    {
      if r < |front| { assert collection[|before| + r] == SubGraph((front + [last])[r], false); }
    }
  }

  /** `emplace_back` on the last subgraph. */
  function PushLast(collection: seq<SubGraph>, x: nat): seq<SubGraph>
    requires collection != []
  {
    var last := |collection| - 1;
    collection[last := collection[last].(nodes := collection[last].nodes + [x])]
  }

  lemma PushNew(collection: seq<SubGraph>, x: nat)
    ensures PushLast(collection + [SubGraph([], false)], x) == collection + [SubGraph([x], false)]
  {
    var one: seq<nat> := [];
    assert one + [x] == [x];
    assert (collection + [SubGraph([], false)])[|collection| := SubGraph([x], false)] ==
      collection + [SubGraph([x], false)];
  }

  function MarkLast(collection: seq<SubGraph>): seq<SubGraph>
    requires collection != []
  {
    var last := |collection| - 1;
    collection[last := collection[last].(supported := true)]
  }

  /** One round of the loop, given the verdict on the node. */
  method PlaceNode(x: nat, ok: bool, newSubGraph: bool, collection: seq<SubGraph>,
    ghost prefix: seq<nat>, ghost sup: set<nat>, ghost runs: seq<seq<nat>>, ghost starts: seq<nat>,
      ghost before: seq<SubGraph>)
    returns (newSubGraph': bool, collection': seq<SubGraph>, ghost runs': seq<seq<nat>>, ghost starts': seq<nat>)
    requires Found(prefix, sup, runs, starts, newSubGraph) && Collected(before, runs, collection) && (ok <==> x in sup)
    ensures Found(prefix + [x], sup, runs', starts', newSubGraph') && Collected(before, runs', collection')
  {
    if !ok {
      SkipNode(prefix, x, sup, runs, starts, newSubGraph);
      return true, collection, runs, starts;
    } else if newSubGraph {
      PlaceInNew(x, collection, prefix, sup, runs, starts, before);
      ghost var start: nat := |prefix|;
      return false, PushLast(collection + [SubGraph([], false)], x), runs + [[x]], starts + [start];
    } else {
      runs' := PlaceInLast(x, collection, prefix, sup, runs, starts, before);
      return false, PushLast(collection, x), runs', starts;
    }
  }

  lemma PlaceInNew(x: nat, collection: seq<SubGraph>, prefix: seq<nat>, sup: set<nat>, runs: seq<seq<nat>>,
      starts: seq<nat>, before: seq<SubGraph>)
    requires Found(prefix, sup, runs, starts, true) && Collected(before, runs, collection) && x in sup
    ensures Found(prefix + [x], sup, runs + [[x]], starts + [|prefix|], false)
    ensures Collected(before, runs + [[x]], PushLast(collection + [SubGraph([], false)], x))
  {
    OpenRun(prefix, x, sup, runs, starts);
    CollectedOpen(before, runs, collection, x);
    PushNew(collection, x);
  }

  lemma PlaceInLast(x: nat, collection: seq<SubGraph>, prefix: seq<nat>, sup: set<nat>, runs: seq<seq<nat>>,
      starts: seq<nat>, before: seq<SubGraph>)
    returns (runs': seq<seq<nat>>)
    requires Found(prefix, sup, runs, starts, false) && Collected(before, runs, collection) && x in sup
    ensures Found(prefix + [x], sup, runs', starts, false)
    ensures collection != [] && Collected(before, runs', PushLast(collection, x))
  {
    LastReachesEnd(prefix, sup, runs, starts);
    var front, last := runs[..|runs| - 1], runs[|runs| - 1];
    assert runs == front + [last];
    ExtendRun(prefix, x, sup, front, last, starts);
    CollectedExtend(before, front, last, collection, x);
    runs' := front + [last + [x]];
  }

  method Partition(nodes: seq<NodeProto>, info: ParseInfo, order: seq<nat>, before: seq<SubGraph>, ghost sup: set<nat>)
    returns (all: bool, collection: seq<SubGraph>, ghost runs: seq<seq<nat>>, ghost starts: seq<nat>)
    requires sup == SupportedSet(info, nodes)
    requires forall i :: 0 <= i < |nodes| ==> nodes[i].outputs != []
    requires forall k :: 0 <= k < |order| ==> order[k] < |nodes|
    ensures AreRuns(order, sup, runs, starts) && Concat(runs) == Keep(order, sup)
    ensures Collected(before, runs, collection)
    ensures all <==> info.parsed && forall k :: 0 <= k < |order| ==> order[k] in sup
  {
    var newSubGraph := true;
    all, collection := info.parsed, before;
    runs, starts := [], [];
    for p := 0 to |order|
      invariant Found(order[..p], sup, runs, starts, newSubGraph) && Collected(before, runs, collection)
      invariant all <==> info.parsed && forall k :: 0 <= k < p ==> order[k] in sup
    {
      assert order[..p + 1] == order[..p] + [order[p]];
      var ok := CheckNode(info, nodes, order[p]);
      newSubGraph, collection, runs, starts :=
        PlaceNode(order[p], ok, newSubGraph, collection, order[..p], sup, runs, starts, before);
      if !ok {
        all := false;
      }
    }
    assert order[..|order|] == order;
  }

  /** The collection when everything is supported: one run behind the given ones, marked. */
  ghost predicate AllInOne(before: seq<SubGraph>, order: seq<nat>, collection: seq<SubGraph>)
  {
    if order == [] then before != [] && collection == MarkLast(before)
    else collection == before + [SubGraph(order, true)]
  }

  /** `supportsModel` after parsing. */
  method SupportsModel(nodes: seq<NodeProto>, info: ParseInfo, before: seq<SubGraph>)
    returns (ok: bool, collection: seq<SubGraph>, ghost order: seq<nat>, ghost runs: seq<seq<nat>>,
        ghost starts: seq<nat>)
    requires forall i :: 0 <= i < |nodes| ==> nodes[i].outputs != []
    requires info.parsed ==> nodes != [] || before != []  // the last subgraph is marked unconditionally
    ensures ok <==>
      UniqueOutputs(nodes) && NoReadCycle(nodes) && info.parsed && forall i :: 0 <= i < |nodes| ==>
        Supported(info, nodes, i)
    ensures UniqueOutputs(nodes) && NoReadCycle(nodes) ==>
      IsOrder(nodes, order) && AreRuns(order, SupportedSet(info, nodes), runs, starts) &&
        Concat(runs) == Keep(order, SupportedSet(info, nodes))
    ensures ok ==> AllInOne(before, order, collection)
    ensures !ok && UniqueOutputs(nodes) && NoReadCycle(nodes) ==> Collected(before, runs, collection)
    ensures !(UniqueOutputs(nodes) && NoReadCycle(nodes)) ==> collection == before
  {
    ok, collection, runs, starts := false, before, [], [];
    var sorted, sequence := Toposort(nodes);
    order := sequence;
    if !sorted {
      return;
    }
    ghost var sup := SupportedSet(info, nodes);
    AllNodes(nodes, order, info);
    ok, collection, runs, starts := Partition(nodes, info, sequence, before, sup);
    if ok {
      OneRun(order, sup, runs, starts);
      OnlyRun(before, order, runs, collection);
      collection := MarkLast(collection);
    }
  }

  lemma AllNodes(nodes: seq<NodeProto>, order: seq<nat>, info: ParseInfo)
    requires IsOrder(nodes, order)
    ensures forall k :: 0 <= k < |order| ==> order[k] < |nodes|
    ensures order == [] <==> nodes == []
    ensures (forall k :: 0 <= k < |order| ==> order[k] in SupportedSet(info, nodes)) <==>
      (forall i :: 0 <= i < |nodes| ==> Supported(info, nodes, i))
  {
    forall k | 0 <= k < |order|
      ensures order[k] < |nodes|
    {
      assert order[k] in order;
    }
    if nodes != [] { assert 0 in order; }
    if order != [] { assert order[0] in order; }
    forall i | 0 <= i < |nodes|
      ensures (forall k :: 0 <= k < |order| ==> order[k] in SupportedSet(info, nodes)) ==> Supported(info, nodes, i)
    {
      assert i in order;
    }
  }

  lemma WholeRun(order: seq<nat>, sup: set<nat>, run: seq<nat>, start: nat)
    requires IsRun(order, sup, run, start) && forall k :: 0 <= k < |order| ==> order[k] in sup
    ensures start == 0 && run == order && order != []
  {
  }

  /** With every node supported there is one run, the whole order. */
  lemma OneRun(order: seq<nat>, sup: set<nat>, runs: seq<seq<nat>>, starts: seq<nat>)
    requires AreRuns(order, sup, runs, starts) && forall k :: 0 <= k < |order| ==> order[k] in sup
    ensures if order == [] then runs == [] else runs == [order]
  {
    if order != [] { LastReachesEnd(order, sup, runs, starts); }
    if runs != [] {
      WholeRun(order, sup, runs[0], starts[0]);
      WholeRun(order, sup, runs[|runs| - 1], starts[|runs| - 1]);
    }
  }

  lemma OnlyRun(before: seq<SubGraph>, order: seq<nat>, runs: seq<seq<nat>>, collection: seq<SubGraph>)
    requires Collected(before, runs, collection) &&
      (if order == [] then runs == [] && before != [] else runs == [order])
    ensures collection != [] && AllInOne(before, order, MarkLast(collection))
  {
    if order == [] {
      assert collection == before;
    } else {
      assert collection[|before| + 0] == SubGraph(runs[0], false);
      assert collection == before + [SubGraph(order, false)];
      assert MarkLast(collection) == before + [SubGraph(order, true)];
    }
  }

  // ----- what the partition is good for -----

  /** A dependency path: each node reads from the next. */
  ghost predicate Path(nodes: seq<NodeProto>, w: seq<nat>)
  {
    w != [] && forall k :: 0 <= k < |w| - 1 ==> Reads(nodes, w[k], w[k + 1])
  }

  /** Along a path, positions in the order go down. */
  lemma {:induction false} PathGoesBack(nodes: seq<NodeProto>, order: seq<nat>, w: seq<nat>, m: nat)
    requires IsOrder(nodes, order) && Path(nodes, w) && m < |w| && w[0] in order
    ensures w[m] in order && IndexOf(order, w[m]) <= IndexOf(order, w[0])
    decreases m
  {
    if m > 0 {
      PathGoesBack(nodes, order, w, m - 1);
      assert Reads(nodes, w[m - 1], w[m - 1 + 1]);
      ReadGoesBack(nodes, order, w[m - 1], w[m]);
    }
  }

  lemma ReadGoesBack(nodes: seq<NodeProto>, order: seq<nat>, a: nat, b: nat)
    requires IsOrder(nodes, order) && Reads(nodes, a, b) && a in order
    ensures b in order && IndexOf(order, b) < IndexOf(order, a)
  {
    var k := IndexOf(order, a);
    assert b in order[..k];
    var j :| 0 <= j < k && order[..k][j] == b;
    PositionIs(order, j);
  }

  lemma PositionIs(order: seq<nat>, j: nat)
    requires NoneTwice(order) && j < |order|
    ensures order[j] in order && IndexOf(order, order[j]) == j
  {
  }

  /** A run holds exactly the nodes at its positions. */
  lemma RunHolds(order: seq<nat>, sup: set<nat>, run: seq<nat>, start: nat, x: nat)
    requires IsRun(order, sup, run, start) && NoneTwice(order)
    ensures x in run <==> x in order && Within(start, run, IndexOf(order, x))
  {
    if x in run {
      var a :| 0 <= a < |run| && run[a] == x;
      PositionIs(order, start + a);
    }
    if x in order && Within(start, run, IndexOf(order, x)) {
      assert run[IndexOf(order, x) - start] == x;
    }
  }

  /** No dependency path leaves a run and comes back to it. */
  lemma RunsAreConvex(nodes: seq<NodeProto>, order: seq<nat>, sup: set<nat>, runs: seq<seq<nat>>, starts: seq<nat>,
      r: nat, w: seq<nat>, m: nat)
    requires IsOrder(nodes, order) && AreRuns(order, sup, runs, starts) && r < |runs| && Path(nodes, w) && m < |w|
    requires w[0] in runs[r] && w[|w| - 1] in runs[r]
    ensures w[m] in runs[r]
  {
    var tail := w[m..];
    RunHolds(order, sup, runs[r], starts[r], w[0]);
    RunHolds(order, sup, runs[r], starts[r], w[|w| - 1]);
    RunHolds(order, sup, runs[r], starts[r], w[m]);
    PathGoesBack(nodes, order, w, m);
    PathTail(nodes, w, m);
    PathGoesBack(nodes, order, tail, |tail| - 1);
  }

  lemma PathTail(nodes: seq<NodeProto>, w: seq<nat>, m: nat)
    requires Path(nodes, w) && m < |w|
    ensures Path(nodes, w[m..])
  {
    var tail := w[m..];
    forall k | 0 <= k < |tail| - 1
      ensures Reads(nodes, tail[k], tail[k + 1])
    {
      assert Reads(nodes, w[m + k], w[m + k + 1]);
    }
  }

  /** Dependencies between runs lead to the same or an earlier run only. */
  lemma RunsDependBackwards(nodes: seq<NodeProto>, order: seq<nat>, sup: set<nat>, runs: seq<seq<nat>>,
      starts: seq<nat>,
    q: nat, r: nat, w: seq<nat>)
    requires IsOrder(nodes, order) && AreRuns(order, sup, runs, starts) && q < |runs| && r < |runs| && Path(nodes, w)
    requires w[0] in runs[q] && w[|w| - 1] in runs[r]
    ensures r <= q
  {
    RunHolds(order, sup, runs[q], starts[q], w[0]);
    RunHolds(order, sup, runs[r], starts[r], w[|w| - 1]);
    PathGoesBack(nodes, order, w, |w| - 1);
  }
}
