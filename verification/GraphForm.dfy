/** The written form of a graph, field by field (`Graph::toJson`, src/lib_api.cc). */
module GraphForm {
  import opened Json
  import opened GraphValue
  import opened GraphMatch
  import opened JsonText
  import opened Permutations

  /** The number `n`, with its decimal text. */
  ghost predicate IsNumber(j: JsonVal, n: int) { j.Num? && j.n == n && j == FromInt(n) }

  /** A reference is written as three numbers: node, entry and version 0. */
  ghost predicate Points(j: JsonVal, node: int, entry: int)
  {
    j.List? && |j.items| == 3 && IsNumber(j.items[0], node) && IsNumber(j.items[1], entry) && IsNumber(j.items[2], 0)
  }

  ghost predicate AllPoint(j: JsonVal, refs: seq<Ref>, p: seq<int>)
    requires InRange(refs, |p|)
  {
    && j.List? && |j.items| == |refs|
    && forall k :: 0 <= k < |refs| ==> Points(j.items[k], p[refs[k].node], refs[k].entry)
  }

  ghost predicate AreStrings(j: JsonVal, attrs: map<string, string>)
  {
    j.Map? && j.members.Keys == attrs.Keys && forall k :: k in attrs ==> j.members[k] == Str(attrs[k])
  }

  ghost predicate AreGraphs(j: JsonVal, gs: seq<GraphVal>)
    requires forall g :: g in gs ==> Linked(g)
  {
    j.List? && |j.items| == |gs| && forall s :: 0 <= s < |gs| ==> IsJson(gs[s], j.items[s])
  }

  /** The fields of a written node; subgraphs are left out when there are none. */
  ghost predicate NodeForm(j: JsonVal, n: NodeVal, p: seq<int>)
    requires InRange(n.inputs, |p|) && forall g :: g in n.subgraphs ==> Linked(g)
  {
    && j.Map?
    && (forall k :: k in j.members <==>
      k in {"op", "name", "inputs", "attrs"} || (k == "subgraphs" && n.subgraphs != []))
    && j.members["op"] == Str(n.op) && j.members["name"] == Str(n.name)
    && AllPoint(j.members["inputs"], n.inputs, p)
    && AreStrings(j.members["attrs"], n.attrs)
    && (n.subgraphs != [] ==> AreGraphs(j.members["subgraphs"], n.subgraphs))
  }

  lemma RefsForm(refs: seq<Ref>, p: seq<int>)
    requires InRange(refs, |p|)
    ensures AllPoint(RefsJson(Renamed(refs, p)), refs, p)
  {
    var items := RefsJson(Renamed(refs, p)).items;
    forall k | 0 <= k < |refs|
      ensures Points(items[k], p[refs[k].node], refs[k].entry)
    {
      IntText(p[refs[k].node]);
      IntText(refs[k].entry);
      IntText(0);
    }
  }

  lemma NodeIsForm(j: JsonVal, n: NodeVal, p: seq<int>)
    requires InRange(n.inputs, |p|) && (forall g :: g in n.subgraphs ==> Linked(g)) && NodeJson(n, j, p)
    ensures NodeForm(j, n, p)
  {
    RefsForm(n.inputs, p);
    assert AreStrings(AttrsJson(n.attrs), n.attrs);
  }

  /** The row pointers count up from 0. */
  ghost predicate CountsUp(j: JsonVal, n: nat)
  {
    j.List? && |j.items| == n && forall i :: 0 <= i < n ==> IsNumber(j.items[i], i)
  }

  ghost predicate AreNumbersOf(j: JsonVal, inputs: seq<int>, p: seq<int>)
    requires forall k :: 0 <= k < |inputs| ==> 0 <= inputs[k] < |p|
  {
    j.List? && |j.items| == |inputs| && forall k :: 0 <= k < |inputs| ==> IsNumber(j.items[k], p[inputs[k]])
  }

  lemma NumbersForm(inputs: seq<int>, p: seq<int>, n: nat)
    requires forall k :: 0 <= k < |inputs| ==> 0 <= inputs[k] < |p|
    ensures AreNumbersOf(IntsJson(RenamedInts(inputs, p)), inputs, p) && CountsUp(IntsJson(seq(n, i => i)), n)
  {
    forall k | 0 <= k < |inputs|
      ensures IsNumber(FromInt(p[inputs[k]]), p[inputs[k]])
    {
      IntText(p[inputs[k]]);
    }
    forall i: nat | i < n
      ensures IsNumber(FromInt(i), i)
    {
      IntText(i);
    }
  }

  /** Every field of the written graph, when node `i` is written at place `p[i]`. */
  lemma WrittenForm(v: GraphVal, j: JsonVal) returns (p: seq<int>)
    requires Linked(v) && IsJson(v, j)
    ensures IsPerm(p, |v.nodes|) && j.Map?
    ensures j.members.Keys == v.attrs.Keys + {"nodes", "heads", "node_row_ptr", "arg_nodes"}
    ensures forall k :: k in v.attrs && k !in {"nodes", "heads", "node_row_ptr", "arg_nodes"} ==>
      j.members[k] == v.attrs[k]
    ensures CountsUp(j.members["node_row_ptr"], |v.nodes|)
    ensures AreNumbersOf(j.members["arg_nodes"], v.inputs, p)
    ensures AllPoint(j.members["heads"], v.heads, p)
    ensures j.members["nodes"].List? && |j.members["nodes"].items| == |v.nodes|
    ensures forall i :: 0 <= i < |v.nodes| ==>
      v.nodes[i] in v.nodes && NodeForm(j.members["nodes"].items[p[i]], v.nodes[i], p)
  {
    p :| GraphJson(v, j, p);
    NumbersForm(v.inputs, p, |v.nodes|);
    RefsForm(v.heads, p);
    forall i | 0 <= i < |v.nodes|
      ensures v.nodes[i] in v.nodes && NodeForm(j.members["nodes"].items[p[i]], v.nodes[i], p)
    {
      assert v.nodes[i] in v.nodes;
      NodeIsForm(j.members["nodes"].items[p[i]], v.nodes[i], p);
    }
  }

  lemma BuiltNames(item: JsonVal, n: NodeVal, p: seq<int>, i: int, m: NodeVal)
    requires InRange(n.inputs, |p|) && (forall g :: g in n.subgraphs ==> Linked(g)) && NodeForm(item, n, p)
    requires NodeResolvable(item, i) && NodeBuilt(item, i, m)
    ensures Field(item, "op") == Str(n.op) && Field(item, "name") == Str(n.name) && m.op == n.op && m.name == n.name
  {
  }

  lemma BuiltAt(j: JsonVal, w: GraphVal, i: nat)
    requires Resolvable(j) && Built(j, w) && i < |Items(Field(j, "nodes"))|
    ensures var nodes := Items(Field(j, "nodes"));
      |w.nodes| == |nodes| && NodeResolvable(nodes[i], i) && NodeBuilt(nodes[i], i, w.nodes[i])
  {
  }

  /** Entry `k` of the written input list is the place of the graph's input `k`: the node
      written there, and whatever node is built from it, has its operator and name. */
  lemma ArgNodesNameInputs(v: GraphVal, j: JsonVal, w: GraphVal, k: nat)
    requires Linked(v) && IsJson(v, j) && Resolvable(j) && Built(j, w) && k < |v.inputs|
    ensures var args, nodes, n := Items(Field(j, "arg_nodes")), Items(Field(j, "nodes")), v.nodes[v.inputs[k]];
      && k < |args| && args[k].Num? && 0 <= args[k].n < |nodes| == |w.nodes|
      && Field(nodes[args[k].n], "op") == Str(n.op) && Field(nodes[args[k].n], "name") == Str(n.name)
      && w.nodes[args[k].n].op == n.op && w.nodes[args[k].n].name == n.name
  {
    var p := WrittenForm(v, j);
    var i := p[v.inputs[k]];
    assert IsNumber(j.members["arg_nodes"].items[k], i);
    BuiltAt(j, w, i);
    BuiltNames(Items(Field(j, "nodes"))[i], v.nodes[v.inputs[k]], p, i, w.nodes[i]);
  }
}
