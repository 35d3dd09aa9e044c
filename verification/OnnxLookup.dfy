/** Parsing the nodes of an ONNX graph in order (3rdparty/onnx-tensorrt/ModelImporter.cpp): every
    input is looked up among the tensors registered so far. */
module OnnxLookup {
  import opened OnnxOrder

  /** What is known before the nodes are parsed, and what the importers do: `given` are the names
      registered already (graph inputs, tensors of an outer graph), `delivered` the output names
      whose value an importer really returns, `importable` the nodes whose importer succeeds. */
  datatype Context = Context(given: set<string>, initializers: seq<string>, delivered: set<string>,
      importable: set<nat>)

  datatype Status = Parsed | InvalidGraph | NotImported(node: nat)

  ghost predicate Delivers(nodes: seq<NodeProto>, c: Context, j: int, name: string)
  {
    name != "" && name in c.delivered && exists a :: Names(nodes, j, a, name)
  }

  /** The name is an initializer, given from outside or an output some node delivers. */
  ghost predicate Available(nodes: seq<NodeProto>, c: Context, name: string)
  {
    name in c.given || name in c.initializers || exists j :: Delivers(nodes, c, j, name)
  }

  ghost predicate Supplied(nodes: seq<NodeProto>, c: Context, i: int)
    requires 0 <= i < |nodes|
  {
    forall k :: 0 <= k < |nodes[i].inputs| && nodes[i].inputs[k] != "" ==> Available(nodes, c, nodes[i].inputs[k])
  }

  /** The tensors registered after the nodes in `done`. */
  ghost predicate Registered(nodes: seq<NodeProto>, c: Context, done: seq<nat>, tensors: set<string>)
  {
    forall name :: name in tensors <==>
      name in c.given || name in c.initializers || exists j :: j in done && Delivers(nodes, c, j, name)
  }

  /** In a producers-first order whatever a node can get is there when its turn comes. */
  lemma FoundInTime(nodes: seq<NodeProto>, c: Context, order: seq<nat>, k: nat, tensors: set<string>, m: nat)
    requires IsOrder(nodes, order) && k < |order| && order[k] < |nodes| && m < |nodes[order[k]].inputs|
    requires Registered(nodes, c, order[..k], tensors)
    ensures var name := nodes[order[k]].inputs[m]; name in tensors <==> Available(nodes, c, name)
  {
    var i := order[k];
    var name := nodes[i].inputs[m];
    if j :| Delivers(nodes, c, j, name) {
      var a :| Names(nodes, j, a, name);
      assert Reads(nodes, i, j);
    }
  }

  method AssembleInputs(nodes: seq<NodeProto>, tensors: set<string>, ghost c: Context, ghost order: seq<nat>, k: nat,
      i: nat)
    returns (ok: bool)
    requires IsOrder(nodes, order) && k < |order| && order[k] == i < |nodes| &&
      Registered(nodes, c, order[..k], tensors)
    ensures ok <==> Supplied(nodes, c, i)
  {
    var inputs := nodes[i].inputs;
    for m := 0 to |inputs|
      invariant forall l :: 0 <= l < m && inputs[l] != "" ==> Available(nodes, c, inputs[l])
    {
      FoundInTime(nodes, c, order, k, tensors, m);
      if inputs[m] != "" && inputs[m] !in tensors {
        return false;
      }
    }
    return true;
  }

  ghost predicate NamedUpTo(nodes: seq<NodeProto>, i: int, a: int, name: string)
  {
    exists b :: b < a && Names(nodes, i, b, name)
  }

  method RegisterOutputs(nodes: seq<NodeProto>, c: Context, i: nat, before: set<string>) returns (tensors: set<string>)
    requires i < |nodes|
    ensures forall name :: name in tensors <==> name in before || Delivers(nodes, c, i, name)
  {
    tensors := before;
    for a := 0 to |nodes[i].outputs|
      invariant forall name :: name in tensors <==>
        name in before || (name != "" && name in c.delivered && NamedUpTo(nodes, i, a, name))
    {
      var output := nodes[i].outputs[a];
      assert Names(nodes, i, a, output);
      assert forall name :: NamedUpTo(nodes, i, a + 1, name) <==> NamedUpTo(nodes, i, a, name) || name == output;
      if output in c.delivered && output != "" {
        tensors := tensors + {output};
      }
    }
    assert forall name :: NamedUpTo(nodes, i, |nodes[i].outputs|, name) <==> exists b :: Names(nodes, i, b, name);
  }

  /** Parsing succeeds if and only if the graph can be sorted, every importer succeeds and every
      input that is not left out is an initializer, given from outside, or delivered by a node:
      no lookup fails because of the order. */
  method ParseGraph(nodes: seq<NodeProto>, c: Context) returns (status: Status)
    ensures status.Parsed? <==>
      && UniqueOutputs(nodes) && NoReadCycle(nodes)
      && forall i :: 0 <= i < |nodes| ==> i in c.importable && Supplied(nodes, c, i)
    ensures status.NotImported? ==> status.node < |nodes| && status.node !in c.importable
    ensures status.InvalidGraph? ==>
      !(UniqueOutputs(nodes) && NoReadCycle(nodes)) || exists i :: 0 <= i < |nodes| && !Supplied(nodes, c, i)
  {
    var tensors := c.given;
    for k := 0 to |c.initializers|
      invariant forall name :: name in tensors <==> name in c.given || name in c.initializers[..k]
    {
      tensors := tensors + {c.initializers[k]};
    }
    var sorted, order := Toposort(nodes);
    if !sorted {
      return InvalidGraph;
    }
    assert order[..0] == [];
    for k := 0 to |order|
      invariant Registered(nodes, c, order[..k], tensors)
      invariant forall l :: 0 <= l < k ==>
        order[l] < |nodes| && order[l] in c.importable && Supplied(nodes, c, order[l])
    {
      var i := order[k];
      assert i in order;
      var ok := AssembleInputs(nodes, tensors, c, order, k, i);
      if !ok {
        return InvalidGraph;
      }
      if i !in c.importable {
        return NotImported(i);
      }
      tensors := RegisterOutputs(nodes, c, i, tensors);
      assert order[..k + 1] == order[..k] + [i];
    }
    forall i | 0 <= i < |nodes|
      ensures i in c.importable && Supplied(nodes, c, i)
    {
      assert i in order;
      var l :| 0 <= l < |order| && order[l] == i;
    }
    return Parsed;
  }
}
