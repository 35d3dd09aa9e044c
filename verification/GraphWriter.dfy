/** `Graph::toJson` on the node objects. */
module GraphWriter {
  import opened Json
  import opened Digraph
  import opened GraphValue
  import opened Permutations
  import opened ExtGraph
  import opened Wrappers

  // ----- numbering the nodes -----

  lemma {:induction false} SizeDistinct(s: seq<Node>)
    requires Distinct(s)
    ensures |set m | m in s| == |s|
    decreases |s|
  {
    if s != [] {
      var rest := s[1..];
      SizeDistinct(rest);
      assert s == [s[0]] + rest;
      assert (set m | m in s) == {s[0]} + set m | m in rest;
      forall k | 0 <= k < |rest|
        ensures rest[k] != s[0]
      {
        assert rest[k] == s[k + 1];
      }
    } else {
      assert (set m | m in s) == {};
    }
  }

  lemma SameSize(s: seq<Node>, t: seq<Node>)
    requires Distinct(s) && Distinct(t) && forall m :: m in s <==> m in t
    ensures |s| == |t|
  {
    SizeDistinct(s);
    SizeDistinct(t);
    assert (set m | m in s) == (set m | m in t);
  }

  /** `number` sends node `i` to `p[i]`. */
  ghost predicate Numbers(number: map<Node, int>, nodes: seq<Node>, p: seq<int>)
  {
    |p| == |nodes| && forall i :: 0 <= i < |nodes| ==> nodes[i] in number && number[nodes[i]] == p[i]
  }

  /** The reversed position of every node in `sorted`. */
  ghost predicate ReverseNumbers(number: map<Node, int>, sorted: seq<Node>)
  {
    forall i :: 0 <= i < |sorted| ==> sorted[i] in number && number[sorted[i]] == |sorted| - 1 - i
  }

  method NumberFromBack(sorted: seq<Node>) returns (number: map<Node, int>)
    requires Distinct(sorted)
    ensures ReverseNumbers(number, sorted)
  {
    number := map[];
    var i := |sorted| - 1;
    while i >= 0
      invariant -1 <= i < |sorted|
      invariant forall k :: i < k < |sorted| ==> sorted[k] in number && number[sorted[k]] == |sorted| - 1 - k
    {
      number := number[sorted[i] := |sorted| - 1 - i];
      i := i - 1;
    }
  }

  ghost function NumbersOf(number: map<Node, int>, nodes: seq<Node>): (p: seq<int>)
    requires forall m :: m in nodes ==> m in number
    ensures Numbers(number, nodes, p)
  {
    seq(|nodes|, i requires 0 <= i < |nodes| => number[nodes[i]])
  }

  lemma NumbersArePermutation(number: map<Node, int>, sorted: seq<Node>, nodes: seq<Node>, p: seq<int>)
    requires Distinct(sorted) && Distinct(nodes) && forall m :: m in sorted <==> m in nodes
    requires ReverseNumbers(number, sorted) && Numbers(number, nodes, p)
    ensures IsPerm(p, |nodes|) && |sorted| == |nodes|
  {
    SameSize(sorted, nodes);
    forall i | 0 <= i < |nodes|
      ensures 0 <= p[i] < |nodes| && sorted[|sorted| - 1 - p[i]] == nodes[i]
    {
      assert nodes[i] in nodes;
      var k :| 0 <= k < |sorted| && sorted[k] == nodes[i];
    }
  }

  /** A ranking of the objects taken from a ranking of the indices, if there is one. */
  ghost function ObjectRank(nodes: seq<Node>, rank: map<nat, nat>): (r: map<Node, nat>)
    requires Distinct(nodes)
    ensures forall i :: 0 <= i < |nodes| ==> nodes[i] in r && (i in rank ==> r[nodes[i]] == rank[i])
  {
    map m | m in nodes :: var i := IndexOf(nodes, m); if i in rank then rank[i] else 0
  }

  ghost predicate MirroredHere(v: GraphVal)
  {
    forall k :: 0 <= k < |v.nodes| ==> MirroredAt(v, k)
  }

  /** On a mirrored graph, output edges are dependency edges backwards. */
  lemma OutputIsDependency(nodes: seq<Node>, v: GraphVal, k: nat, e: NodeEntry)
    requires Linked(v) && MirroredHere(v) && |nodes| == |v.nodes| && k < |nodes|
    requires FieldsAre(nodes[k], v.nodes[k], nodes) && e in nodes[k].outputs
    ensures exists c: nat :: c < |nodes| && e.node == nodes[c] && Edge(Deps(v), c, k)
  {
    var i :| 0 <= i < |nodes[k].outputs| && nodes[k].outputs[i] == e;
    var r := v.nodes[k].outputs[i];
    assert v.nodes[k] in v.nodes && r in v.nodes[k].outputs && Ref(r.node, r.entry) == r;
    assert MirroredAt(v, k) && Feeds(v, k, r.node, r.entry);
    assert Edge(Deps(v), r.node, k);
  }

  lemma DependencyIsOutput(nodes: seq<Node>, v: GraphVal, a: nat, b: nat)
    requires Linked(v) && MirroredHere(v) && |nodes| == |v.nodes| && Edge(Deps(v), a, b)
    requires FieldsAre(nodes[b], v.nodes[b], nodes)
    ensures exists e :: e in nodes[b].outputs && e.node == nodes[a]
  {
    var j :| 0 <= j < |v.nodes[a].inputs| && v.nodes[a].inputs[j].node == b;
    assert MirroredAt(v, b) && Feeds(v, b, a, j);
    var i :| 0 <= i < |v.nodes[b].outputs| && v.nodes[b].outputs[i] == Ref(a, j);
    assert nodes[b].outputs[i] in nodes[b].outputs && EntryIs(nodes[b].outputs[i], Ref(a, j), nodes);
  }

  lemma RankTransfers(nodes: seq<Node>, v: GraphVal, rank: map<nat, nat>)
    requires Linked(v) && MirroredHere(v) && Distinct(nodes) && |nodes| == |v.nodes|
    requires forall i :: 0 <= i < |nodes| ==> FieldsAre(nodes[i], v.nodes[i], nodes)
    requires Ranked(Deps(v), rank)
    ensures RanksOutputs((set m | m in nodes), ObjectRank(nodes, rank))
  {
    forall m, e | m in nodes && e in m.outputs
      ensures e.node != null && e.node in nodes && ObjectRank(nodes, rank)[m] < ObjectRank(nodes, rank)[e.node]
    {
      RankGrows(nodes, v, rank, IndexOf(nodes, m), e);
    }
  }

  lemma RankGrows(nodes: seq<Node>, v: GraphVal, rank: map<nat, nat>, k: nat, e: NodeEntry)
    requires Linked(v) && MirroredHere(v) && Distinct(nodes) && |nodes| == |v.nodes| && k < |nodes|
    requires FieldsAre(nodes[k], v.nodes[k], nodes) && e in nodes[k].outputs
    requires Ranked(Deps(v), rank)
    ensures e.node != null && e.node in nodes && ObjectRank(nodes, rank)[nodes[k]] < ObjectRank(nodes, rank)[e.node]
  {
    OutputIsDependency(nodes, v, k, e);
    var c: nat :| c < |nodes| && e.node == nodes[c] && Edge(Deps(v), c, k);
    assert rank[k] < rank[c];
  }

  lemma ConsumerFirst(sorted: seq<Node>, m: Node, e: NodeEntry, number: map<Node, int>)
    requires OutputsFirst(sorted) && m in sorted && e in m.outputs && ReverseNumbers(number, sorted)
    ensures m in number && e.node != null && e.node in number && number[m] < number[e.node]
  {
    var i :| 0 <= i < |sorted| && sorted[i] == m;
    assert e.node in sorted[..i];
    var k :| 0 <= k < i && sorted[..i][k] == e.node;
    assert sorted[k] == e.node;
  }

  lemma OrderIsTopological(nodes: seq<Node>, v: GraphVal, sorted: seq<Node>, number: map<Node, int>, p: seq<int>)
    requires Linked(v) && MirroredHere(v) && |nodes| == |v.nodes|
    requires forall i :: 0 <= i < |nodes| ==> FieldsAre(nodes[i], v.nodes[i], nodes)
    requires OutputsFirst(sorted) && Distinct(sorted) && forall m :: m in nodes ==> m in sorted
    requires ReverseNumbers(number, sorted) && Numbers(number, nodes, p)
    ensures Topological(v, p)
  {
    forall a: nat, b: nat | Edge(Deps(v), a, b)
      ensures p[b] < p[a]
    {
      DependencyIsOutput(nodes, v, a, b);
      var e :| e in nodes[b].outputs && e.node == nodes[a];
      ConsumerFirst(sorted, nodes[b], e, number);
    }
  }

  /** Sorting and numbering together: the numbers are a permutation, and topological
      whenever the graph is acyclic and its edge lists mirror each other. */
  method SortNodes(g: Graph, ghost v: GraphVal, ghost fp: set<object>)
    returns (sorted: seq<Node>, number: map<Node, int>, ghost p: seq<int>)
    requires GraphIs(g, v, fp) && Linked(v)
    ensures Distinct(sorted) && |sorted| == |g.nodes| && forall m :: m in sorted <==> m in g.nodes
    ensures ReverseNumbers(number, sorted) && Numbers(number, g.nodes, p)
    ensures IsPerm(p, |v.nodes|)
    ensures Acyclic(Deps(v)) && MirroredHere(v) ==> Topological(v, p)
  {
    ghost var rank := ChooseRank(g.nodes, v);
    ghost var first;
    sorted, first := TopologicalSort(g, rank, {});
    number := NumberFromBack(sorted);
    p := NumbersOf(number, g.nodes);
    NumbersArePermutation(number, sorted, g.nodes, p);
    if Acyclic(Deps(v)) && MirroredHere(v) {
      OrderIsTopological(g.nodes, v, sorted, number, p);
    }
  }

  lemma ChooseRank(nodes: seq<Node>, v: GraphVal) returns (rank: map<Node, nat>)
    requires Linked(v) && Distinct(nodes) && |nodes| == |v.nodes|
    requires forall i :: 0 <= i < |nodes| ==> FieldsAre(nodes[i], v.nodes[i], nodes)
    ensures Acyclic(Deps(v)) && MirroredHere(v) ==> RanksOutputs((set m | m in nodes), rank)
  {
    rank := map[];
    if Acyclic(Deps(v)) && MirroredHere(v) {
      AcyclicIffRanked(Deps(v));
      var byIndex :| Ranked(Deps(v), byIndex);
      RankTransfers(nodes, v, byIndex);
      rank := ObjectRank(nodes, byIndex);
    }
  }

  // ----- writing -----

  /** `out` lists the numbered targets of `es`. */
  ghost predicate Targets(es: seq<NodeEntry>, number: map<Node, int>, out: seq<Ref>)
  {
    && |out| == |es|
    && forall i :: 0 <= i < |es| ==> Target(es[i], number, out[i])
  }

  ghost predicate Target(e: NodeEntry, number: map<Node, int>, r: Ref)
  {
    e.node != null && e.node in number && r == Ref(number[e.node], e.entry)
  }

  lemma TargetsRenamed(es: seq<NodeEntry>, number: map<Node, int>, refs: seq<Ref>, nodes: seq<Node>, p: seq<int>)
    requires EntriesAre(es, refs, nodes) && InRange(refs, |p|) && Numbers(number, nodes, p)
    ensures Targets(es, number, Renamed(refs, p))
  {
    forall i | 0 <= i < |es|
      ensures Target(es[i], number, Renamed(refs, p)[i])
    {
      assert EntryIs(es[i], refs[i], nodes);
    }
  }

  method EntriesToJson(es: seq<NodeEntry>, number: map<Node, int>, ghost out: seq<Ref>) returns (j: JsonVal)
    requires Targets(es, number, out)
    ensures j == RefsJson(out)
  {
    var list: seq<JsonVal> := [];
    for i := 0 to |es|
      invariant |list| == i && forall k :: 0 <= k < i ==> list[k] == RefJson(out[k])
    {
      assert Target(es[i], number, out[i]);
      var item := EntryToJson(es[i], number, out[i]);
      list := list + [item];
    }
    AreRefsJson(list, out);
    return List(list);
  }

  method EntryToJson(e: NodeEntry, number: map<Node, int>, ghost r: Ref) returns (j: JsonVal)
    requires Target(e, number, r)
    ensures j == RefJson(r)
  {
    var node: Node := e.node;
    j := List([FromInt(number[node]), FromInt(e.entry), FromInt(0)]);
  }

  lemma AreRefsJson(list: seq<JsonVal>, refs: seq<Ref>)
    requires |list| == |refs| && forall k :: 0 <= k < |list| ==> list[k] == RefJson(refs[k])
    ensures List(list) == RefsJson(refs)
  {
    assert list == RefsJson(refs).items;
  }

  method RowPtrJson(n: nat) returns (j: JsonVal)
    ensures j == IntsJson(seq(n, i => i))
  {
    var list: seq<JsonVal> := [];
    for i := 0 to n
      invariant |list| == i && forall k :: 0 <= k < i ==> list[k] == FromInt(k)
    {
      list := list + [FromInt(i)];
    }
    assert list == IntsJson(seq(n, i => i)).items;
    return List(list);
  }

  method ArgNodesJson(inputs: seq<Node>, number: map<Node, int>, ghost indices: seq<int>, ghost nodes: seq<Node>,
      ghost p: seq<int>)
    returns (j: JsonVal)
    requires Numbers(number, nodes, p) && |inputs| == |indices|
    requires forall i :: 0 <= i < |inputs| ==> 0 <= indices[i] < |nodes| && inputs[i] == nodes[indices[i]]
    ensures j == IntsJson(RenamedInts(indices, p))
  {
    var list: seq<JsonVal> := [];
    for i := 0 to |inputs|
      invariant |list| == i && forall k :: 0 <= k < i ==> list[k] == FromInt(RenamedInts(indices, p)[k])
    {
      list := list + [FromInt(number[inputs[i]])];
    }
    assert list == IntsJson(RenamedInts(indices, p)).items;
    return List(list);
  }

  method NodeToJson(n: Node, number: map<Node, int>, ghost v: NodeVal, ghost nodes: seq<Node>, ghost p: seq<int>,
      ghost fp: set<object>)
    returns (j: JsonVal)
    requires FieldsAre(n, v, nodes) && SubgraphsAre(n.subgraphs, v.subgraphs, fp) && Numbers(number, nodes, p)
    requires InRange(v.inputs, |p|) && forall g :: g in v.subgraphs ==> Linked(g)
    ensures NodeJson(v, j, p)
    decreases v
  {
    TargetsRenamed(n.inputs, number, v.inputs, nodes, p);
    var inputs := EntriesToJson(n.inputs, number, Renamed(v.inputs, p));
    var members := map["op" := Str(n.op), "name" := Str(n.name), "inputs" := inputs];
    if |n.subgraphs| > 0 {
      var subgraphs := SubgraphsToJson(n.subgraphs, v.subgraphs, fp);
      members := members["subgraphs" := subgraphs];
    }
    members := members["attrs" := AttrsJson(n.attrs)];
    j := Map(members);
  }

  method SubgraphsToJson(gs: seq<Graph>, ghost vs: seq<GraphVal>, ghost fp: set<object>) returns (j: JsonVal)
    requires SubgraphsAre(gs, vs, fp) && forall g :: g in vs ==> Linked(g)
    ensures SubgraphsJson(vs, j)
    decreases vs
  {
    var list: seq<JsonVal> := [];
    for s := 0 to |gs|
      invariant |list| == s && forall k :: 0 <= k < s ==> IsJson(vs[k], list[k])
    {
      var sub := ToJson(gs[s], vs[s], fp);
      list := list + [sub];
    }
    return List(list);
  }

  /** The nodes are written from the back of `sorted`, so node `k` lands at `p[k]`. */
  method NodesToJson(sorted: seq<Node>, number: map<Node, int>, ghost v: GraphVal, ghost nodes: seq<Node>,
      ghost p: seq<int>, ghost fp: set<object>)
    returns (items: seq<JsonVal>)
    requires Linked(v) && |nodes| == |v.nodes| == |sorted| && Numbers(number, nodes, p) &&
      ReverseNumbers(number, sorted)
    requires IsPerm(p, |v.nodes|) && forall m :: m in sorted <==> m in nodes
    requires forall i :: 0 <= i < |nodes| ==> FieldsAre(nodes[i], v.nodes[i], nodes)
    requires forall i :: 0 <= i < |nodes| ==> SubgraphsAre(nodes[i].subgraphs, v.nodes[i].subgraphs, fp)
    ensures |items| == |nodes|
    ensures forall k :: 0 <= k < |nodes| ==> NodeJson(v.nodes[k], items[p[k]], p)
    decreases v, 0
  {
    items := [];
    var i := |sorted| - 1;
    while i >= 0
      invariant -1 <= i < |sorted| && |items| == |sorted| - 1 - i
      invariant forall k :: 0 <= k < |nodes| && p[k] < |items| ==> NodeJson(v.nodes[k], items[p[k]], p)
    {
      assert sorted[i] in sorted;
      ghost var k := IndexOf(nodes, sorted[i]);
      assert v.nodes[k] in v.nodes;
      var item := NodeToJson(sorted[i], number, v.nodes[k], nodes, p, fp);
      forall m | 0 <= m < |nodes| && p[m] == |items|
        ensures m == k
      {
        NumberDetermines(p, |nodes|, m, k);
      }
      items := items + [item];
      i := i - 1;
    }
  }

  /** `Graph::toJson`. */
  method ToJson(g: Graph, ghost v: GraphVal, ghost fp: set<object>) returns (j: JsonVal)
    requires GraphIs(g, v, fp) && Linked(v)
    ensures IsJson(v, j)
    decreases v
  {
    var members := g.attrs;
    var sorted, number; ghost var p;
    sorted, number, p := SortNodes(g, v, fp);
    var rowPtr := RowPtrJson(|g.nodes|);
    var argNodes := ArgNodesJson(g.inputs, number, v.inputs, g.nodes, p);
    TargetsRenamed(g.outputs, number, v.heads, g.nodes, p);
    var heads := EntriesToJson(g.outputs, number, Renamed(v.heads, p));
    var items := NodesToJson(sorted, number, v, g.nodes, p, fp);
    members := members["node_row_ptr" := rowPtr]["arg_nodes" := argNodes];
    members := members["heads" := heads]["nodes" := List(items)];
    j := Map(members);
    assert GraphJson(v, j, p);
  }
}
