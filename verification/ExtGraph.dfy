/** The graph objects of the extension library (src/lib_api.cc): nodes that point at each
    other, ordered by depth-first search, written to JSON and rebuilt from it. */
module ExtGraph {
  import opened Json
  import opened Digraph
  import opened GraphValue

  datatype NodeEntry = NodeEntry(node: Node?, entry: int)

  class Node {
    var op: string
    var name: string
    var attrs: map<string, string>
    var inputs: seq<NodeEntry>
    var outputs: seq<NodeEntry>
    var subgraphs: seq<Graph>

    constructor ()
      ensures inputs == [] && outputs == [] && subgraphs == []
    {
      op, name, attrs := "", "", map[];
      inputs, outputs, subgraphs := [], [], [];
    }
  }

  class Graph {
    var nodes: seq<Node>
    var inputs: seq<Node>
    var outputs: seq<NodeEntry>
    var attrs: map<string, JsonVal>

    constructor ()
      ensures nodes == [] && inputs == [] && outputs == [] && attrs == map[]
    {
      nodes, inputs, outputs, attrs := [], [], [], map[];
    }
  }

  // ----- the value a heap graph stands for -----

  ghost predicate Distinct(nodes: seq<Node>)
  {
    forall i, j :: 0 <= i < j < |nodes| ==> nodes[i] != nodes[j]
  }

  ghost predicate EntryIs(e: NodeEntry, r: Ref, nodes: seq<Node>)
  {
    && e.entry == r.entry
    && if 0 <= r.node < |nodes| then e.node == nodes[r.node] else r.node == NULL && e.node == null
  }

  ghost predicate EntriesAre(es: seq<NodeEntry>, refs: seq<Ref>, nodes: seq<Node>)
  {
    |es| == |refs| && forall i :: 0 <= i < |es| ==> EntryIs(es[i], refs[i], nodes)
  }

  ghost predicate FieldsAre(n: Node, v: NodeVal, nodes: seq<Node>)
    reads n
  {
    && n.op == v.op && n.name == v.name && n.attrs == v.attrs
    && EntriesAre(n.inputs, v.inputs, nodes)
    && EntriesAre(n.outputs, v.outputs, nodes)
  }

  /** In the objects `fp`, graph `g` has the content `v`. */
  ghost predicate GraphIs(g: Graph, v: GraphVal, fp: set<object>)
    reads fp
    decreases v
  {
    && g in fp && |g.nodes| == |v.nodes| && Distinct(g.nodes)
    && (forall i :: 0 <= i < |g.nodes| ==> g.nodes[i] in fp && FieldsAre(g.nodes[i], v.nodes[i], g.nodes))
    && (forall i :: 0 <= i < |g.nodes| ==> SubgraphsAre(g.nodes[i].subgraphs, v.nodes[i].subgraphs, fp))
    && EntriesAre(g.outputs, v.heads, g.nodes)
    && |g.inputs| == |v.inputs|
    && (forall i :: 0 <= i < |g.inputs| ==> 0 <= v.inputs[i] < |g.nodes| && g.inputs[i] == g.nodes[v.inputs[i]])
    && g.attrs == v.attrs
  }

  ghost predicate SubgraphsAre(gs: seq<Graph>, vs: seq<GraphVal>, fp: set<object>)
    reads fp
    decreases vs
  {
    |gs| == |vs| && forall s :: 0 <= s < |vs| ==> GraphIs(gs[s], vs[s], fp)
  }

  lemma {:induction false} GraphIsMonotone(g: Graph, v: GraphVal, fp: set<object>, fp': set<object>)
    requires GraphIs(g, v, fp) && fp <= fp'
    ensures GraphIs(g, v, fp')
    decreases v
  {
    forall i | 0 <= i < |g.nodes|
      ensures SubgraphsAre(g.nodes[i].subgraphs, v.nodes[i].subgraphs, fp')
    {
      SubgraphsAreMonotone(g.nodes[i].subgraphs, v.nodes[i].subgraphs, fp, fp');
    }
  }

  lemma {:induction false} SubgraphsAreMonotone(gs: seq<Graph>, vs: seq<GraphVal>, fp: set<object>, fp': set<object>)
    requires SubgraphsAre(gs, vs, fp) && fp <= fp'
    ensures SubgraphsAre(gs, vs, fp')
    decreases vs
  {
    forall s | 0 <= s < |vs|
      ensures GraphIs(gs[s], vs[s], fp')
    {
      GraphIsMonotone(gs[s], vs[s], fp, fp');
    }
  }

  // ----- depth-first order -----

  /** A ranking that grows along every output edge, with all targets in `all`. */
  ghost predicate RanksOutputs(all: set<Node>, rank: map<Node, nat>)
    reads all
  {
    && all <= rank.Keys
    && forall m, e :: m in all && e in m.outputs ==> e.node != null && e.node in all && rank[m] < rank[e.node]
  }

  /** Consumers come before the node that feeds them. */
  ghost predicate OutputsFirst(sorted: seq<Node>)
    reads sorted
  {
    forall i, e :: 0 <= i < |sorted| && e in sorted[i].outputs ==> e.node != null && e.node in sorted[..i]
  }

  /** Output edges within `all` do not lead out of `part`, except into `elsewhere`. */
  ghost predicate OutputsStay(part: set<Node>, all: set<Node>, elsewhere: set<Node>)
    reads part
  {
    forall m, e :: m in part && e in m.outputs && e.node in all ==> e.node in part || e.node in elsewhere
  }

  /** `_dfs_util` with the handler of `topological_sort`.  Nothing beyond `reach`, if its output
      edges stay inside, is visited from inside it. */
  method Visit(n: Node, toVisit: set<Node>, sorted: seq<Node>, ghost all: set<Node>, ghost rank: map<Node, nat>,
      ghost reach: set<Node>)
    returns (left: set<Node>, order: seq<Node>)
    requires n in toVisit && toVisit <= all && Distinct(sorted)
    requires forall m :: m in sorted ==> m in all && m !in toVisit
    requires RanksOutputs(all, rank) ==> OutputsFirst(sorted)
    requires RanksOutputs(all, rank) ==> forall a :: a in all && a !in toVisit && a !in sorted ==> rank[a] < rank[n]
    ensures left <= toVisit - {n} && sorted <= order && Distinct(order)
    ensures forall m :: m in order <==> m in sorted || m in toVisit - left
    ensures RanksOutputs(all, rank) ==> OutputsFirst(order)
    ensures OutputsStay(toVisit - left, all, all - toVisit)
    ensures OutputsStay(reach, all, {}) && n in reach ==> toVisit - left <= reach
    decreases toVisit
  {
    ghost var ranked := RanksOutputs(all, rank);
    ghost var inside := OutputsStay(reach, all, {}) && n in reach;
    left, order := toVisit - {n}, sorted;
    for i := 0 to |n.outputs|
      invariant left <= toVisit - {n} && sorted <= order && Distinct(order)
      invariant forall m :: m in order <==> m in sorted || m in toVisit - left - {n}
      invariant ranked ==> OutputsFirst(order)
      invariant ranked ==> forall k :: 0 <= k < i ==> n.outputs[k].node in order
      invariant OutputsStay(toVisit - left - {n}, all, all - left)
      invariant forall k :: 0 <= k < i ==> n.outputs[k].node !in left
      invariant inside ==> toVisit - left <= reach
    {
      var o := n.outputs[i].node;
      assert n.outputs[i] in n.outputs;
      if o != null && o in left {
        left, order := Visit(o, left, order, all, rank, reach);
      }
    }
    if ranked { Finish(order, n); }
    order := order + [n];
  }

  lemma Finish(order: seq<Node>, n: Node)
    requires OutputsFirst(order)
    requires forall k :: 0 <= k < |n.outputs| ==> n.outputs[k].node != null && n.outputs[k].node in order
    ensures OutputsFirst(order + [n])
  {
    var longer := order + [n];
    forall i, e | 0 <= i < |longer| && e in longer[i].outputs
      ensures e.node != null && e.node in longer[..i]
    {
      if i < |order| { assert longer[..i] == order[..i]; } else { assert longer[..i] == order; }
    }
  }

  /** `topological_sort`: inputs first, then any node that is left.  So the order starts with the
      nodes output edges lead to from the inputs: the first `m` contain the inputs, are not left
      by output edges, and are in every set `reach` of which that is true. */
  method TopologicalSort(g: Graph, ghost rank: map<Node, nat>, ghost reach: set<Node>)
    returns (sorted: seq<Node>, ghost m: nat)
    requires Distinct(g.nodes)
    ensures Distinct(sorted) && forall n :: n in sorted <==> n in g.nodes
    ensures var all := set n | n in g.nodes; RanksOutputs(all, rank) ==> OutputsFirst(sorted)
    ensures var all := set n | n in g.nodes; m <= |sorted| && var first := set n | n in sorted[..m];
      && (forall n :: n in g.inputs && n in all ==> n in first)
      && OutputsStay(first, all, {})
      && (OutputsStay(reach, all, {}) && (forall n :: n in g.inputs && n in all ==> n in reach) ==> first <= reach)
  {
    sorted := [];
    var toVisit := set n | n in g.nodes;
    ghost var all := toVisit;
    ghost var inside := OutputsStay(reach, all, {}) && forall n :: n in g.inputs && n in all ==> n in reach;
    for i := 0 to |g.inputs|
      invariant toVisit <= all && Distinct(sorted)
      invariant forall n :: n in sorted <==> n in all - toVisit
      invariant RanksOutputs(all, rank) ==> OutputsFirst(sorted)
      invariant forall k :: 0 <= k < i ==> g.inputs[k] !in toVisit
      invariant OutputsStay(all - toVisit, all, {})
      invariant inside ==> all - toVisit <= reach
    {
      if g.inputs[i] in toVisit {
        toVisit, sorted := Visit(g.inputs[i], toVisit, sorted, all, rank, reach);
      }
    }
    m := |sorted|;
    ghost var start := sorted;
    assert (set n | n in start) == all - toVisit;
    while toVisit != {}
      invariant toVisit <= all && Distinct(sorted) && start <= sorted
      invariant forall n :: n in sorted <==> n in all - toVisit
      invariant RanksOutputs(all, rank) ==> OutputsFirst(sorted)
      decreases toVisit
    {
      var n :| n in toVisit;
      toVisit, sorted := Visit(n, toVisit, sorted, all, rank, {});
    }
    assert sorted[..m] == start;
  }
}
