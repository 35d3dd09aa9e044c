/** Ordering the nodes of an ONNX graph (3rdparty/onnx-tensorrt/toposort.hpp): a three-colour
    depth-first search over the producers of each node's inputs. */
module OnnxOrder {
  import opened Digraph
  import opened Wrappers

  datatype NodeProto = NodeProto(name: string, opType: string, inputs: seq<string>, outputs: seq<string>)

  datatype NodeState = Unvisited | Active | Visited

  // ----- output names -----

  ghost predicate Names(nodes: seq<NodeProto>, i: int, a: int, name: string)
  {
    0 <= i < |nodes| && 0 <= a < |nodes[i].outputs| && nodes[i].outputs[a] == name
  }

  /** No output name occurs twice, neither in two nodes nor in one. */
  ghost predicate UniqueOutputs(nodes: seq<NodeProto>)
  {
    forall i, a, j, b, name :: Names(nodes, i, a, name) && Names(nodes, j, b, name) ==> i == j && a == b
  }

  /** `nodeMap` sends exactly the output names to the index of their node. */
  ghost predicate IsProducerMap(nodes: seq<NodeProto>, nodeMap: map<string, nat>)
  {
    && (forall name :: name in nodeMap ==> exists a :: Names(nodes, nodeMap[name], a, name))
    && forall i, a, name :: Names(nodes, i, a, name) ==> name in nodeMap && nodeMap[name] == i
  }

  /** Names of the nodes before `i` and of the first `a` outputs of node `i`. */
  ghost predicate NamedBefore(nodes: seq<NodeProto>, i: int, a: int, j: int, b: int, name: string)
  {
    Names(nodes, j, b, name) && (j < i || (j == i && b < a))
  }

  ghost predicate GivenBefore(nodes: seq<NodeProto>, i: int, a: int, j: int, name: string)
  {
    exists b :: NamedBefore(nodes, i, a, j, b, name)
  }

  ghost predicate MapSoFar(nodes: seq<NodeProto>, i: int, a: int, nodeMap: map<string, nat>)
  {
    && (forall name :: name in nodeMap ==> GivenBefore(nodes, i, a, nodeMap[name], name))
    && (forall j, b, name :: NamedBefore(nodes, i, a, j, b, name) ==> name in nodeMap && nodeMap[name] == j)
    && forall j, b, k, d, name :: NamedBefore(nodes, i, a, j, b, name) && NamedBefore(nodes, i, a, k, d, name) ==>
      j == k && b == d
  }

  method BuildMap(nodes: seq<NodeProto>) returns (ok: bool, nodeMap: map<string, nat>)
    ensures ok <==> UniqueOutputs(nodes)
    ensures ok ==> IsProducerMap(nodes, nodeMap)
  {
    nodeMap := map[];
    for i := 0 to |nodes|
      invariant MapSoFar(nodes, i, 0, nodeMap)
    {
      for a := 0 to |nodes[i].outputs|
        invariant MapSoFar(nodes, i, a, nodeMap)
      {
        var output := nodes[i].outputs[a];
        assert Names(nodes, i, a, output);
        if output in nodeMap {
          Clash(nodes, i, a, nodeMap);
          return false, nodeMap;
        }
        Extend(nodes, i, a, nodeMap);
        nodeMap := nodeMap[output := i];
      }
      NextNode(nodes, i, nodeMap);
    }
    AllNamed(nodes, nodeMap);
    return true, nodeMap;
  }

  lemma Clash(nodes: seq<NodeProto>, i: int, a: int, nodeMap: map<string, nat>)
    requires MapSoFar(nodes, i, a, nodeMap) && 0 <= i < |nodes| && 0 <= a < |nodes[i].outputs| &&
      nodes[i].outputs[a] in nodeMap
    ensures !UniqueOutputs(nodes)
  {
    var name := nodes[i].outputs[a];
    assert GivenBefore(nodes, i, a, nodeMap[name], name);
    var b :| NamedBefore(nodes, i, a, nodeMap[name], b, name);
    assert Names(nodes, i, a, name) && Names(nodes, nodeMap[name], b, name);
  }

  lemma Extend(nodes: seq<NodeProto>, i: int, a: int, nodeMap: map<string, nat>)
    requires MapSoFar(nodes, i, a, nodeMap) && 0 <= i < |nodes| && 0 <= a < |nodes[i].outputs| &&
      nodes[i].outputs[a] !in nodeMap
    ensures MapSoFar(nodes, i, a + 1, nodeMap[nodes[i].outputs[a] := i])
  {
    var output, a' := nodes[i].outputs[a], a + 1;
    var nodeMap' := nodeMap[output := i];
    forall j, b, name | NamedBefore(nodes, i, a', j, b, name)
      ensures NamedBefore(nodes, i, a, j, b, name) || (j == i && b == a && name == output)
    {
    }
    assert NamedBefore(nodes, i, a', i, a, output);
    forall name | name in nodeMap'
      ensures GivenBefore(nodes, i, a', nodeMap'[name], name)
    {
      if name != output {
        assert GivenBefore(nodes, i, a, nodeMap[name], name);
        var b :| NamedBefore(nodes, i, a, nodeMap[name], b, name);
        assert NamedBefore(nodes, i, a', nodeMap'[name], b, name);
      }
    }
    assert MapSoFar(nodes, i, a', nodeMap');
  }

  lemma NextNode(nodes: seq<NodeProto>, i: int, nodeMap: map<string, nat>)
    requires 0 <= i < |nodes| && MapSoFar(nodes, i, |nodes[i].outputs|, nodeMap)
    ensures MapSoFar(nodes, i + 1, 0, nodeMap)
  {
    var i', a := i + 1, |nodes[i].outputs|;
    forall j, b, name
      ensures NamedBefore(nodes, i', 0, j, b, name) <==> NamedBefore(nodes, i, a, j, b, name)
    {
    }
    forall name | name in nodeMap
      ensures GivenBefore(nodes, i', 0, nodeMap[name], name)
    {
      assert GivenBefore(nodes, i, a, nodeMap[name], name);
      var b :| NamedBefore(nodes, i, a, nodeMap[name], b, name);
      assert NamedBefore(nodes, i', 0, nodeMap[name], b, name);
    }
    assert MapSoFar(nodes, i', 0, nodeMap);
  }

  lemma AllNamed(nodes: seq<NodeProto>, nodeMap: map<string, nat>)
    requires MapSoFar(nodes, |nodes|, 0, nodeMap)
    ensures UniqueOutputs(nodes) && IsProducerMap(nodes, nodeMap)
  {
    forall j, b, name
      ensures Names(nodes, j, b, name) <==> NamedBefore(nodes, |nodes|, 0, j, b, name)
    {
    }
    forall name | name in nodeMap
      ensures exists b :: Names(nodes, nodeMap[name], b, name)
    {
      assert GivenBefore(nodes, |nodes|, 0, nodeMap[name], name);
      var b :| NamedBefore(nodes, |nodes|, 0, nodeMap[name], b, name);
      assert Names(nodes, nodeMap[name], b, name);
    }
  }

  // ----- the producer graph -----

  /** The producers of the inputs that come from inside the graph. */
  ghost function Producers(inputs: seq<string>, nodeMap: map<string, nat>): (p: seq<nat>)
    ensures forall b :: b in p <==> exists k :: 0 <= k < |inputs| && inputs[k] in nodeMap && nodeMap[inputs[k]] == b
  {
    if inputs == [] then [] else
      var k := |inputs| - 1;
      var front := Producers(inputs[..k], nodeMap);
      if inputs[k] in nodeMap then front + [nodeMap[inputs[k]]] else front
  }

  ghost function ProducerGraph(nodes: seq<NodeProto>, nodeMap: map<string, nat>): (g: Adjacency)
    ensures |g| == |nodes| && forall i :: 0 <= i < |g| ==> g[i] == Producers(nodes[i].inputs, nodeMap)
  {
    seq(|nodes|, i requires 0 <= i < |nodes| => Producers(nodes[i].inputs, nodeMap))
  }

  /** Node `a` reads an output of node `b`. */
  ghost predicate Reads(nodes: seq<NodeProto>, a: nat, b: nat)
  {
    a < |nodes| && exists k, d :: 0 <= k < |nodes[a].inputs| && Names(nodes, b, d, nodes[a].inputs[k])
  }

  lemma EdgeIsRead(nodes: seq<NodeProto>, nodeMap: map<string, nat>, a: nat, b: nat)
    requires IsProducerMap(nodes, nodeMap)
    ensures Edge(ProducerGraph(nodes, nodeMap), a, b) <==> Reads(nodes, a, b)
  {
    var g := ProducerGraph(nodes, nodeMap);
    if Edge(g, a, b) {
      var k :| 0 <= k < |nodes[a].inputs| && nodes[a].inputs[k] in nodeMap && nodeMap[nodes[a].inputs[k]] == b;
      var d :| Names(nodes, b, d, nodes[a].inputs[k]);
    }
    if Reads(nodes, a, b) {
      var k, d :| 0 <= k < |nodes[a].inputs| && Names(nodes, b, d, nodes[a].inputs[k]);
      assert b in g[a];
    }
  }

  // ----- the depth-first search -----

  ghost predicate ProducersFirst(g: Adjacency, order: seq<nat>)
  {
    forall k, b :: 0 <= k < |order| && Edge(g, order[k], b) ==> b in order[..k]
  }

  /** The active nodes, each reading from the next. */
  ghost predicate Chain(g: Adjacency, stack: seq<nat>)
  {
    forall k :: 0 <= k < |stack| - 1 ==> Edge(g, stack[k], stack[k + 1])
  }

  /** All producers of node `i` are in the order. */
  ghost predicate Ready(g: Adjacency, order: seq<nat>, i: nat)
  {
    forall b: nat :: Edge(g, i, b) ==> b in order
  }

  ghost function Unseen(states: seq<NodeState>): set<nat>
  {
    set k | 0 <= k < |states| && states[k].Unvisited?
  }

  class Sorter {
    const nodes: seq<NodeProto>
    const nodeMap: map<string, nat>
    var states: seq<NodeState>
    var order: seq<nat>

    ghost function G(): Adjacency { ProducerGraph(nodes, nodeMap) }

    ghost predicate Valid()
      reads this
    {
      && |states| == |nodes|
      && (forall name :: name in nodeMap ==> nodeMap[name] < |nodes|)
      && NoneTwice(order)
      && (forall i :: i in order <==> 0 <= i < |states| && states[i].Visited?)
      && ProducersFirst(G(), order)
    }

    ghost predicate ActiveIs(stack: seq<nat>)
      reads this
    {
      Chain(G(), stack) && forall i :: i in stack <==> 0 <= i < |states| && states[i].Active?
    }

    constructor (nodes: seq<NodeProto>, nodeMap: map<string, nat>)
      requires forall name :: name in nodeMap ==> nodeMap[name] < |nodes|
      ensures this.nodes == nodes && this.nodeMap == nodeMap
      ensures Valid() && ActiveIs([]) && order == []
    {
      this.nodes, this.nodeMap := nodes, nodeMap;
      states := seq(|nodes|, _ => Unvisited);
      order := [];
    }

    /** `get_post_order`. */
    method PostOrder(i: nat, ghost stack: seq<nat>) returns (ok: bool)
      requires Valid() && ActiveIs(stack) && i < |nodes|
      requires stack != [] ==> Edge(G(), stack[|stack| - 1], i)
      modifies this
      ensures ok ==> Valid() && ActiveIs(stack) && i in order && old(order) <= order
      ensures ok ==> Unseen(states) <= Unseen(old(states))
      ensures !ok ==> !Acyclic(G())
      ensures old(i in order) ==> ok && order == old(order)
      ensures old(i !in order && i !in stack && Ready(G(), order, i)) ==> ok && order == old(order) + [i]
      decreases Unseen(states), 0
    {
      if states[i].Active? {
        LoopFound(G(), stack, i);
        return false;
      } else if states[i].Visited? {
        return true;
      }
      ghost var path := stack + [i];
      states := states[i := Active];
      assert i in Unseen(old(states)) && i !in Unseen(states);
      ok := VisitProducers(i, path);
      if ok {
        Complete(G(), order, i);
        states := states[i := Visited];
        order := order + [i];
        assert i !in stack && forall x :: x in path <==> x in stack || x == i;
      }
    }

    /** The loop over the inputs: those from outside the graph are passed over. */
    method VisitProducers(i: nat, ghost path: seq<nat>) returns (ok: bool)
      requires Valid() && ActiveIs(path) && i < |nodes| && path != [] && path[|path| - 1] == i
      modifies this
      ensures ok ==> Valid() && ActiveIs(path) && Ready(G(), order, i) && old(order) <= order
      ensures ok ==> Unseen(states) <= Unseen(old(states))
      ensures !ok ==> !Acyclic(G())
      ensures old(Ready(G(), order, i)) ==> ok && order == old(order)
      decreases Unseen(states), 1
    {
      ghost var ready := Ready(G(), order, i);
      var inputs := nodes[i].inputs;
      for k := 0 to |inputs|
        invariant Valid() && ActiveIs(path) && old(order) <= order
        invariant Unseen(states) <= Unseen(old(states))
        invariant forall m :: 0 <= m < k && inputs[m] in nodeMap ==> nodeMap[inputs[m]] in order
        invariant ready ==> order == old(order)
      {
        if inputs[k] !in nodeMap {
          continue;
        }
        var producer := nodeMap[inputs[k]];
        assert producer in Producers(nodes[i].inputs, nodeMap);
        assert Edge(G(), i, producer);
        ghost var before := order;
        ok := PostOrder(producer, path);
        if !ok {
          return false;
        }
        assert forall x :: x in before ==> x in order;
      }
      return true;
    }
  }

  lemma LoopFound(g: Adjacency, stack: seq<nat>, i: nat)
    requires Chain(g, stack) && i in stack && Edge(g, stack[|stack| - 1], i)
    ensures !Acyclic(g)
  {
    var k :| 0 <= k < |stack| && stack[k] == i;
    var w := stack + [i];
    forall m | 0 <= m < |w| - 1
      ensures Edge(g, w[m], w[m + 1])
    {
      if m < |stack| - 1 { assert Edge(g, stack[m], stack[m + 1]); }
    }
    CutWalk(g, w, k, |stack|);
    assert ClosedWalk(g, w[k..|stack| + 1]);
  }

  lemma Complete(g: Adjacency, order: seq<nat>, i: nat)
    requires ProducersFirst(g, order) && i < |g| && Ready(g, order, i)
    ensures ProducersFirst(g, order + [i])
  {
    var longer := order + [i];
    forall k, b | 0 <= k < |longer| && Edge(g, longer[k], b)
      ensures b in longer[..k]
    {
      if k < |order| { assert longer[..k] == order[..k]; } else { assert longer[..k] == order; }
    }
  }

  // ----- the sort -----

  /** A cycle of nodes each reading from the next. */
  ghost predicate ReadCycle(nodes: seq<NodeProto>, w: seq<nat>)
  {
    |w| >= 2 && w[0] == w[|w| - 1] && forall k :: 0 <= k < |w| - 1 ==> Reads(nodes, w[k], w[k + 1])
  }

  ghost predicate NoReadCycle(nodes: seq<NodeProto>)
  {
    forall w :: !ReadCycle(nodes, w)
  }

  /** Each node index once, and every producer before its consumers. */
  ghost predicate IsOrder(nodes: seq<NodeProto>, order: seq<nat>)
  {
    && NoneTwice(order)
    && (forall i :: i in order <==> 0 <= i < |nodes|)
    && forall k, b: nat :: 0 <= k < |order| && Reads(nodes, order[k], b) ==> b in order[..k]
  }

  lemma CyclesAgree(nodes: seq<NodeProto>, nodeMap: map<string, nat>)
    requires IsProducerMap(nodes, nodeMap)
    ensures Acyclic(ProducerGraph(nodes, nodeMap)) <==> NoReadCycle(nodes)
  {
    var g := ProducerGraph(nodes, nodeMap);
    forall w
      ensures ClosedWalk(g, w) <==> ReadCycle(nodes, w)
    {
      forall k | 0 <= k < |w| - 1
        ensures Edge(g, w[k], w[k + 1]) <==> Reads(nodes, w[k], w[k + 1])
      {
        EdgeIsRead(nodes, nodeMap, w[k], w[k + 1]);
      }
      if ClosedWalk(g, w) {
        forall k | 0 <= k < |w| - 1
          ensures Reads(nodes, w[k], w[k + 1])
        {
          assert Edge(g, w[k], w[k + 1]);
        }
      }
      if ReadCycle(nodes, w) {
        forall k | 0 <= k < |w| - 1
          ensures Edge(g, w[k], w[k + 1])
        {
          assert Reads(nodes, w[k], w[k + 1]);
        }
      }
    }
  }

  /** A complete post-order ranks the nodes, so there was no cycle. */
  lemma OrderRanks(g: Adjacency, order: seq<nat>)
    requires ProducersFirst(g, order) && NoneTwice(order) && forall i :: i in order <==> 0 <= i < |g|
    ensures Acyclic(g)
  {
    var rank := map i | i in Below(|g|) :: IndexOf(order, i);
    forall a: nat, b: nat | Edge(g, a, b)
      ensures rank[b] < rank[a]
    {
      var k := IndexOf(order, a);
      assert b in order[..k];
      var j :| 0 <= j < k && order[..k][j] == b;
      assert order[j] == b == order[IndexOf(order, b)];
    }
    assert Ranked(g, rank);
    AcyclicIffRanked(g);
  }

  /** Every node reads from nodes before it only. */
  ghost predicate AlreadyOrdered(nodes: seq<NodeProto>)
  {
    forall a: nat, b: nat :: Reads(nodes, a, b) ==> b < a
  }

  lemma ReadyInTurn(nodes: seq<NodeProto>, nodeMap: map<string, nat>, order: seq<nat>, i: nat)
    requires IsProducerMap(nodes, nodeMap) && AlreadyOrdered(nodes) && order == Upto(i)
    ensures i !in order && Ready(ProducerGraph(nodes, nodeMap), order, i)
  {
    forall b: nat | Edge(ProducerGraph(nodes, nodeMap), i, b)
      ensures b in order
    {
      EdgeIsRead(nodes, nodeMap, i, b);
      assert order[b] == b;
    }
  }

  function Upto(n: nat): (s: seq<nat>)
    ensures |s| == n && forall k :: 0 <= k < n ==> s[k] == k
  {
    seq(n, k => k)
  }

  /** `toposort`: succeeds exactly when output names are unique and no node depends on itself;
      nodes already in order stay as they are. */
  method Toposort(nodes: seq<NodeProto>) returns (ok: bool, order: seq<nat>)
    ensures ok <==> UniqueOutputs(nodes) && NoReadCycle(nodes)
    ensures ok ==> IsOrder(nodes, order)
    ensures UniqueOutputs(nodes) && AlreadyOrdered(nodes) ==> ok && order == Upto(|nodes|)
  {
    order := [];
    var nodeMap;
    ok, nodeMap := BuildMap(nodes);
    if !ok {
      return;
    }
    CyclesAgree(nodes, nodeMap);
    forall name | name in nodeMap
      ensures nodeMap[name] < |nodes|
    {
      var a :| Names(nodes, nodeMap[name], a, name);
    }
    var sorter := new Sorter(nodes, nodeMap);
    for i := 0 to |nodes|
      invariant sorter.Valid() && sorter.ActiveIs([]) && sorter.nodes == nodes && sorter.nodeMap == nodeMap
      invariant forall k :: 0 <= k < i ==> k in sorter.order
      invariant AlreadyOrdered(nodes) ==> sorter.order == Upto(i)
    {
      ghost var before := sorter.order;
      if AlreadyOrdered(nodes) { ReadyInTurn(nodes, nodeMap, before, i); }
      ok := sorter.PostOrder(i, []);
      if !ok {
        return;
      }
      assert forall x :: x in before ==> x in sorter.order;
    }
    order := sorter.order;
    ghost var g := ProducerGraph(nodes, nodeMap);
    OrderRanks(g, order);
    forall k, b: nat | 0 <= k < |order| && Reads(nodes, order[k], b)
      ensures b in order[..k]
    {
      EdgeIsRead(nodes, nodeMap, order[k], b);
    }
    return true, order;
  }
}
