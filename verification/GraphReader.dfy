/** `Graph::fromJson`: nodes are allocated one by one, linked to the nodes before them, and
    entered into the output lists of their producers. */
module GraphReader {
  import opened Json
  import opened GraphValue
  import opened ExtGraph

  // ----- how one more node changes the output lists -----

  /** The entries that node `c` with these inputs adds to the outputs of node `k`. */
  ghost function Slots(refs: seq<Ref>, k: int, c: int): (s: seq<Ref>)
    ensures forall a, j :: Ref(a, j) in s <==> a == c && 0 <= j < |refs| && refs[j].node == k
    ensures Ascending(s)
  {
    if refs == [] then [] else
      var last := |refs| - 1;
      var front := Slots(refs[..last], k, c);
      if refs[last].node == k then front + [Ref(c, last)] else front
  }

  ghost function WithConsumer(vs: seq<NodeVal>, n: NodeVal): (ws: seq<NodeVal>)
    ensures |ws| == |vs| + 1 && ws[|vs|] == n
    ensures forall k :: 0 <= k < |vs| ==> ws[k] == vs[k].(outputs := vs[k].outputs + Slots(n.inputs, k, |vs|))
  {
    seq(|vs|, k requires 0 <= k < |vs| => vs[k].(outputs := vs[k].outputs + Slots(n.inputs, k, |vs|))) + [n]
  }

  ghost function Partial(vs: seq<NodeVal>): GraphVal { GraphVal(vs, [], [], map[]) }

  /** Inputs name earlier nodes only, and the outputs mirror them. */
  ghost predicate MirroredSoFar(vs: seq<NodeVal>)
  {
    && (forall c :: 0 <= c < |vs| ==> InRange(vs[c].inputs, c))
    && OutputsBuilt(vs)
    && forall k :: 0 <= k < |vs| ==> MirroredAt(Partial(vs), k)
  }

  lemma MirrorGrows(vs: seq<NodeVal>, n: NodeVal)
    requires MirroredSoFar(vs) && n.outputs == [] && InRange(n.inputs, |vs|)
    ensures MirroredSoFar(WithConsumer(vs, n))
  {
    var ws := WithConsumer(vs, n);
    forall k | 0 <= k < |ws|
      ensures Ascending(ws[k].outputs) && MirroredAt(Partial(ws), k)
    {
      if k < |vs| { MirrorGrowsAt(vs, n, k); } else { NothingFeedsLast(vs, n); }
    }
  }

  lemma MirrorGrowsAt(vs: seq<NodeVal>, n: NodeVal, k: int)
    requires MirroredSoFar(vs) && 0 <= k < |vs|
    ensures Ascending(WithConsumer(vs, n)[k].outputs) && MirroredAt(Partial(WithConsumer(vs, n)), k)
  {
    var ws := WithConsumer(vs, n);
    var old_, new_ := vs[k].outputs, Slots(n.inputs, k, |vs|);
    assert MirroredAt(Partial(vs), k);
    forall c, j
      ensures Ref(c, j) in ws[k].outputs <==> Feeds(Partial(ws), k, c, j)
    {
      assert Ref(c, j) in old_ <==> Feeds(Partial(vs), k, c, j);
      assert Ref(c, j) in ws[k].outputs <==> Ref(c, j) in old_ || Ref(c, j) in new_;
    }
    assert Ascending(ws[k].outputs) by {
      forall x | 0 <= x < |old_|
        ensures old_[x].node < |vs|
      {
        assert Ref(old_[x].node, old_[x].entry) in old_;
        assert Feeds(Partial(vs), k, old_[x].node, old_[x].entry);
      }
      forall y | 0 <= y < |new_|
        ensures new_[y].node == |vs|
      {
        assert Ref(new_[y].node, new_[y].entry) in new_;
      }
    }
  }

  lemma NothingFeedsLast(vs: seq<NodeVal>, n: NodeVal)
    requires MirroredSoFar(vs) && n.outputs == [] && InRange(n.inputs, |vs|)
    ensures MirroredAt(Partial(WithConsumer(vs, n)), |vs|)
  {
    var ws := WithConsumer(vs, n);
    forall c, j
      ensures !Feeds(Partial(ws), |vs|, c, j)
    {
      if 0 <= c < |ws| && 0 <= j < |ws[c].inputs| {
        assert ws[c].inputs[j] in ws[c].inputs;
        assert c < |vs| ==> InRange(vs[c].inputs, c);
      }
    }
  }

  // ----- linking -----

  ghost function RefsOf(inputs: seq<JsonVal>): (refs: seq<Ref>)
    requires forall e :: e in inputs ==> HasRef(e)
    ensures |refs| == |inputs| && forall s :: 0 <= s < |inputs| ==> HasRef(inputs[s]) && refs[s] == RefOf(inputs[s])
  {
    seq(|inputs|, s requires 0 <= s < |inputs| => assert inputs[s] in inputs; RefOf(inputs[s]))
  }

  /** The output lists after node `c` with inputs `refs` has been linked. */
  ghost function OutsAfter(outs: seq<seq<Ref>>, refs: seq<Ref>, c: int): (r: seq<seq<Ref>>)
    ensures |r| == |outs| && forall k :: 0 <= k < |outs| ==> r[k] == outs[k] + Slots(refs, k, c)
  {
    seq(|outs|, k requires 0 <= k < |outs| => outs[k] + Slots(refs, k, c))
  }

  lemma OutsAfterNone(outs: seq<seq<Ref>>, c: int)
    ensures OutsAfter(outs, [], c) == outs
  {
    forall k | 0 <= k < |outs|
      ensures OutsAfter(outs, [], c)[k] == outs[k]
    {
      assert Slots([], k, c) == [];
    }
  }

  lemma OutsAfterSnoc(outs: seq<seq<Ref>>, refs: seq<Ref>, r: Ref, c: int)
    requires 0 <= r.node < |outs|
    ensures var before := OutsAfter(outs, refs, c);
      OutsAfter(outs, refs + [r], c) == before[r.node := before[r.node] + [Ref(c, |refs|)]]
  {
    assert (refs + [r])[..|refs|] == refs;
    forall k | 0 <= k < |outs|
      ensures Slots(refs + [r], k, c) == Slots(refs, k, c) + (if r.node == k then [Ref(c, |refs|)] else [])
    {
    }
    var before := OutsAfter(outs, refs, c);
    var after := OutsAfter(outs, refs + [r], c);
    assert after[r.node] == before[r.node] + [Ref(c, |refs|)];
  }

  /** The table from numbers to the nodes read so far. */
  ghost predicate IsTable(nodeMap: map<int, Node>, level: seq<Node>)
  {
    forall k :: (k in nodeMap <==> 0 <= k < |level|) && (k in nodeMap ==> nodeMap[k] == level[k])
  }

  ghost predicate OutputsAre(level: seq<Node>, outs: seq<seq<Ref>>, all: seq<Node>)
    reads level
  {
    |outs| == |level| && forall k :: 0 <= k < |level| ==> EntriesAre(level[k].outputs, outs[k], all)
  }

  /** One input slot: the entry of `n` and the mirror entry of its producer. */
  method LinkOne(n: Node, node: Node, entry: int, slot: nat, ghost k: int, ghost level: seq<Node>,
      ghost outs: seq<seq<Ref>>)
    requires Distinct(level + [n]) && 0 <= k < |level| && level[k] == node
    requires OutputsAre(level, outs, level + [n])
    modifies node`outputs, n`inputs
    ensures n.inputs == old(n.inputs) + [NodeEntry(node, entry)]
    ensures OutputsAre(level, outs[k := outs[k] + [Ref(|level|, slot)]], level + [n])
  {
    ghost var all := level + [n];
    assert all[|level|] == n && forall i :: 0 <= i < |level| ==> all[i] == level[i];
    n.inputs := n.inputs + [NodeEntry(node, entry)];
    node.outputs := node.outputs + [NodeEntry(n, slot)];
  }

  /** Sets the inputs of the new node `n` and enters it into the outputs of its producers;
      fails where the source would follow a null pointer. */
  method LinkInputs(n: Node, inputs: seq<JsonVal>, nodeMap: map<int, Node>, ghost level: seq<Node>,
      ghost outs: seq<seq<Ref>>)
    returns (ok: bool)
    requires Distinct(level + [n]) && n.inputs == [] && IsTable(nodeMap, level)
    requires OutputsAre(level, outs, level + [n])
    modifies (set m | m in level)`outputs, n`inputs
    ensures ok <==> InputsResolvable(inputs, |level|)
    ensures ok ==> EntriesAre(n.inputs, RefsOf(inputs), level + [n])
    ensures ok ==> OutputsAre(level, OutsAfter(outs, RefsOf(inputs), |level|), level + [n])
  {
    ghost var all := level + [n];
    assert RefsOf(inputs[..0]) == [];
    OutsAfterNone(outs, |level|);
    for j := 0 to |inputs|
      invariant InputsResolvable(inputs[..j], |level|)
      invariant EntriesAre(n.inputs, RefsOf(inputs[..j]), all)
      invariant OutputsAre(level, OutsAfter(outs, RefsOf(inputs[..j]), |level|), all)
    {
      var input := Items(inputs[j]);
      if |input| < 2 || NumOf(input[0]) !in nodeMap {
        assert inputs[j] in inputs;
        return false;
      }
      Linking(inputs, j, |level|);
      ghost var refs, k := RefsOf(inputs[..j]), NumOf(input[0]);
      OutsAfterSnoc(outs, refs, RefOf(inputs[j]), |level|);
      var node := nodeMap[NumOf(input[0])];
      LinkOne(n, node, NumOf(input[1]), j, k, level, OutsAfter(outs, refs, |level|));
    }
    assert inputs[..|inputs|] == inputs;
    return true;
  }

  lemma Linking(inputs: seq<JsonVal>, j: nat, i: nat)
    requires j < |inputs| && InputsResolvable(inputs[..j], i)
    requires HasRef(inputs[j]) && 0 <= RefOf(inputs[j]).node < i
    ensures InputsResolvable(inputs[..j + 1], i)
    ensures RefsOf(inputs[..j + 1]) == RefsOf(inputs[..j]) + [RefOf(inputs[j])]
  {
    assert inputs[..j + 1] == inputs[..j] + [inputs[j]];
  }

  // ----- building -----

  /** The graph under construction: node contents, subgraphs, and the "null" nodes collected
      as graph inputs. */
  ghost predicate PartlyBuilt(g: Graph, vs: seq<NodeVal>, ins: seq<int>, sub: set<object>)
    reads g, g.nodes, sub
  {
    && |g.nodes| == |vs| && Distinct(g.nodes)
    && g !in sub && (forall m :: m in g.nodes ==> m !in sub)
    && (forall k :: 0 <= k < |vs| ==> FieldsAre(g.nodes[k], vs[k], g.nodes))
    && (forall k :: 0 <= k < |vs| ==> SubgraphsAre(g.nodes[k].subgraphs, vs[k].subgraphs, sub))
    && InputsAre(g.inputs, ins, g.nodes)
    && MirroredSoFar(vs)
    && InputsBuilt(GraphVal(vs, ins, [], map[]))
  }

  ghost predicate InputsAre(inputs: seq<Node>, ins: seq<int>, nodes: seq<Node>)
  {
    |inputs| == |ins| && forall i :: 0 <= i < |ins| ==> 0 <= ins[i] < |nodes| && inputs[i] == nodes[ins[i]]
  }

  ghost predicate NodesBuilt(items: seq<JsonVal>, vs: seq<NodeVal>)
  {
    |items| == |vs| && forall i :: 0 <= i < |vs| ==> NodeRead(items[i], i, vs[i])
  }

  ghost predicate NodeRead(item: JsonVal, i: int, v: NodeVal)
  {
    NodeResolvable(item, i) && NodeBuilt(item, i, v)
  }

  method ReadSubgraphs(items: seq<JsonVal>)
    returns (ok: bool, gs: seq<Graph>, ghost ws: seq<GraphVal>, ghost fp: set<object>)
    ensures fresh(fp)
    ensures ok <==> AllResolvable(items)
    ensures ok ==> SubgraphsAre(gs, ws, fp) && |ws| == |items|
    ensures ok ==> forall s :: 0 <= s < |items| ==> items[s] in items && Built(items[s], ws[s])
    decreases items
  {
    gs, ws, fp := [], [], {};
    for s := 0 to |items|
      invariant |gs| == |ws| == s && fresh(fp)
      invariant forall k :: 0 <= k < s ==> Resolvable(items[k]) && Built(items[k], ws[k])
      invariant SubgraphsAre(gs, ws, fp)
    {
      var g; ghost var w, more;
      g, w, more := FromJson(items[s]);
      if g == null {
        assert items[s] in items;
        return false, gs, ws, fp;
      }
      SubgraphsAreMonotone(gs, ws, fp, fp + more);
      GraphIsMonotone(g, w, more, fp + more);
      gs, ws, fp := gs + [g], ws + [w], fp + more;
    }
    return true, gs, ws, fp;
  }

  /** Everything about a node except its inputs. */
  ghost predicate BodyBuilt(j: JsonVal, v: NodeVal)
    requires AllResolvable(Items(Field(j, "subgraphs")))
  {
    var subgraphs := Items(Field(j, "subgraphs"));
    && v.op == StrOf(Field(j, "op")) && v.name == StrOf(Field(j, "name"))
    && v.attrs == (map k | k in MembersOf(Field(j, "attrs")) :: StrOf(MembersOf(Field(j, "attrs"))[k]))
    && |v.subgraphs| == |subgraphs|
    && forall s :: 0 <= s < |subgraphs| ==> subgraphs[s] in subgraphs && Built(subgraphs[s], v.subgraphs[s])
  }

  method NewNode(node: JsonVal) returns (ok: bool, n: Node, ghost v: NodeVal, ghost fp: set<object>)
    ensures fresh(n) && fresh(fp) && n !in fp && n.inputs == [] && n.outputs == []
    ensures ok <==> AllResolvable(Items(Field(node, "subgraphs")))
    ensures ok ==> n.op == v.op && n.name == v.name && n.attrs == v.attrs && v.inputs == [] && v.outputs == []
    ensures ok ==> SubgraphsAre(n.subgraphs, v.subgraphs, fp) && BodyBuilt(node, v)
    decreases node, 0
  {
    n := new Node();
    n.op := StrOf(Field(node, "op"));
    n.name := StrOf(Field(node, "name"));
    var attributes := MembersOf(Field(node, "attrs"));
    n.attrs := map k | k in attributes :: StrOf(attributes[k]);
    ok, fp := true, {};
    ghost var ws: seq<GraphVal> := [];
    var subgraphs := Items(Field(node, "subgraphs"));
    if |subgraphs| > 0 {
      var gs;
      ok, gs, ws, fp := ReadSubgraphs(subgraphs);
      n.subgraphs := gs;
    }
    v := NodeVal(n.op, n.name, n.attrs, [], [], ws);
  }

  lemma EntriesGrow(es: seq<NodeEntry>, refs: seq<Ref>, level: seq<Node>, n: Node)
    requires EntriesAre(es, refs, level)
    ensures EntriesAre(es, refs, level + [n])
  {
    forall i | 0 <= i < |es|
      ensures EntryIs(es[i], refs[i], level + [n])
    {
      assert EntryIs(es[i], refs[i], level);
    }
  }

  /** A node has been added and filled in but for its inputs. */
  ghost predicate Pending(g: Graph, level: seq<Node>, n: Node, body: NodeVal, vs: seq<NodeVal>, ins: seq<int>,
      sub: set<object>)
    reads g, level, n, sub
  {
    && |level| == |vs| && g.nodes == level + [n] && Distinct(level + [n])
    && g !in sub && n !in sub && (forall m :: m in level ==> m !in sub)
    && (forall k :: 0 <= k < |vs| ==> FieldsAre(level[k], vs[k], level))
    && (forall k :: 0 <= k < |vs| ==> SubgraphsAre(level[k].subgraphs, vs[k].subgraphs, sub))
    && BodyIs(n, body, sub)
    && InputsAre(g.inputs, ins, level + [n])
    && MirroredSoFar(vs)
    && InputsBuilt(GraphVal(vs + [body], ins, [], map[]))
  }

  ghost predicate BodyIs(n: Node, body: NodeVal, sub: set<object>)
    reads n, sub
  {
    && n.op == body.op && n.name == body.name && n.attrs == body.attrs
    && n.inputs == [] && n.outputs == [] && body.outputs == []
    && SubgraphsAre(n.subgraphs, body.subgraphs, sub)
  }

  method PrepareNode(g: Graph, node: JsonVal, ghost vs: seq<NodeVal>, ghost ins: seq<int>, ghost sub: set<object>)
    returns (ok: bool, n: Node, ghost body: NodeVal, ghost sub': set<object>)
    requires PartlyBuilt(g, vs, ins, sub)
    ensures fresh(n) && fresh(sub' - sub) && n !in sub'
    ensures ok <==> AllResolvable(Items(Field(node, "subgraphs")))
    ensures ok ==> BodyBuilt(node, body) && BodyIs(n, body, sub') && PartlyBuilt(g, vs, ins, sub')
    decreases node, 1
  {
    ghost var more;
    ok, n, body, more := NewNode(node);
    sub' := sub + more;
    if ok {
      SubgraphsAreMonotone(n.subgraphs, body.subgraphs, more, sub');
      PartlyBuiltMonotone(g, vs, ins, sub, sub');
    }
  }

  lemma PartlyBuiltMonotone(g: Graph, vs: seq<NodeVal>, ins: seq<int>, sub: set<object>, sub': set<object>)
    requires PartlyBuilt(g, vs, ins, sub) && sub <= sub' && g !in sub' && forall m :: m in g.nodes ==> m !in sub'
    ensures PartlyBuilt(g, vs, ins, sub')
  {
    forall k | 0 <= k < |vs|
      ensures SubgraphsAre(g.nodes[k].subgraphs, vs[k].subgraphs, sub')
    {
      SubgraphsAreMonotone(g.nodes[k].subgraphs, vs[k].subgraphs, sub, sub');
    }
  }

  method PushNode(g: Graph, n: Node, ghost body: NodeVal, ghost vs: seq<NodeVal>, ghost ins: seq<int>,
      ghost sub: set<object>)
    returns (ghost ins': seq<int>)
    requires PartlyBuilt(g, vs, ins, sub) && BodyIs(n, body, sub) && n !in sub && n !in g.nodes
    modifies g`nodes, g`inputs
    ensures g.nodes == old(g.nodes) + [n]
    ensures Pending(g, old(g.nodes), n, body, vs, ins', sub)
  {
    g.nodes := g.nodes + [n];
    ins' := ins;
    if n.op == "null" {
      g.inputs := g.inputs + [n];
      ins' := ins + [|vs|];
    }
    InputsGrow(vs, body, ins, ins');
  }

  lemma InputsGrow(vs: seq<NodeVal>, body: NodeVal, ins: seq<int>, ins': seq<int>)
    requires InputsBuilt(GraphVal(vs, ins, [], map[]))
    requires ins' == if body.op == "null" then ins + [|vs|] else ins
    ensures InputsBuilt(GraphVal(vs + [body], ins', [], map[]))
  {
    forall i
      ensures i in ins' <==> 0 <= i < |vs| + 1 && (vs + [body])[i].op == "null"
    {
      assert i in ins <==> 0 <= i < |vs| && vs[i].op == "null";
    }
    forall i, j | 0 <= i < j < |ins'|
      ensures ins'[i] < ins'[j]
    {
      assert ins[i] in ins;
    }
  }

  lemma NotLast(level: seq<Node>, n: Node)
    requires Distinct(level + [n])
    ensures n !in level
  {
    var all := level + [n];
    forall k | 0 <= k < |level|
      ensures level[k] != n
    {
      assert all[k] == level[k] && all[|level|] == n;
    }
  }

  method FinishNode(g: Graph, n: Node, inputs: seq<JsonVal>, nodeMap: map<int, Node>, ghost level: seq<Node>,
      ghost body: NodeVal,
    ghost vs: seq<NodeVal>, ghost ins: seq<int>, ghost sub: set<object>)
    returns (ok: bool)
    requires Pending(g, level, n, body, vs, ins, sub) && IsTable(nodeMap, level)
    modifies (set m | m in level)`outputs, n`inputs
    ensures ok <==> InputsResolvable(inputs, |vs|)
    ensures ok ==> PartlyBuilt(g, WithConsumer(vs, body.(inputs := RefsOf(inputs))), ins, sub)
  {
    ghost var outs := seq(|vs|, k requires 0 <= k < |vs| => vs[k].outputs);
    forall k | 0 <= k < |vs|
      ensures EntriesAre(level[k].outputs, outs[k], level + [n])
    {
      EntriesGrow(level[k].outputs, outs[k], level, n);
    }
    NotLast(level, n);
    ok := LinkInputs(n, inputs, nodeMap, level, outs);
    if ok {
      Assemble(g, level, n, body.(inputs := RefsOf(inputs)), vs, ins, sub, outs);
    }
  }

  lemma Assemble(g: Graph, level: seq<Node>, n: Node, v: NodeVal, vs: seq<NodeVal>, ins: seq<int>, sub: set<object>,
      outs: seq<seq<Ref>>)
    requires |level| == |vs| == |outs| && g.nodes == level + [n] && Distinct(level + [n])
    requires g !in sub && n !in sub && (forall m :: m in level ==> m !in sub)
    requires forall k :: 0 <= k < |vs| ==> outs[k] == vs[k].outputs
    requires forall k :: 0 <= k < |vs| ==>
      level[k].op == vs[k].op && level[k].name == vs[k].name && level[k].attrs == vs[k].attrs
    requires forall k :: 0 <= k < |vs| ==> EntriesAre(level[k].inputs, vs[k].inputs, level)
    requires OutputsAre(level, OutsAfter(outs, v.inputs, |level|), level + [n])
    requires forall k :: 0 <= k < |vs| ==> SubgraphsAre(level[k].subgraphs, vs[k].subgraphs, sub)
    requires FieldsAre(n, v, level + [n]) && v.outputs == [] && SubgraphsAre(n.subgraphs, v.subgraphs, sub)
    requires InputsAre(g.inputs, ins, level + [n])
    requires MirroredSoFar(vs) && InRange(v.inputs, |vs|)
    requires InputsBuilt(GraphVal(vs + [v], ins, [], map[]))
    ensures PartlyBuilt(g, WithConsumer(vs, v), ins, sub)
  {
    var ws := WithConsumer(vs, v);
    forall k | 0 <= k < |ws|
      ensures FieldsAre(g.nodes[k], ws[k], g.nodes) && SubgraphsAre(g.nodes[k].subgraphs, ws[k].subgraphs, sub)
    {
      if k < |vs| { EntriesGrow(level[k].inputs, vs[k].inputs, level, n); }
    }
    MirrorGrows(vs, v);
    SameInputs(vs, v, ins);
  }

  lemma SameInputs(vs: seq<NodeVal>, v: NodeVal, ins: seq<int>)
    requires InputsBuilt(GraphVal(vs + [v], ins, [], map[]))
    ensures InputsBuilt(GraphVal(WithConsumer(vs, v), ins, [], map[]))
  {
    var ws := WithConsumer(vs, v);
    assert forall i :: 0 <= i < |ws| ==> ws[i].op == (vs + [v])[i].op;
  }

  ghost predicate SameButOutputs(v: NodeVal, v': NodeVal) { v' == v.(outputs := v'.outputs) }

  /** One round of the loop over the JSON nodes. */
  method AddNode(g: Graph, node: JsonVal, nodeMap: map<int, Node>, ghost vs: seq<NodeVal>, ghost ins: seq<int>,
      ghost sub: set<object>)
    returns (ok: bool, n: Node, ghost vs': seq<NodeVal>, ghost ins': seq<int>, ghost sub': set<object>)
    requires PartlyBuilt(g, vs, ins, sub) && IsTable(nodeMap, g.nodes)
    modifies g`nodes, g`inputs, g.nodes
    ensures fresh(n) && fresh(sub' - sub)
    ensures ok <==> NodeResolvable(node, |vs|)
    ensures ok ==> g.nodes == old(g.nodes) + [n] && PartlyBuilt(g, vs', ins', sub') && |vs'| == |vs| + 1
    ensures ok ==> NodeBuilt(node, |vs|, vs'[|vs|]) && forall k :: 0 <= k < |vs| ==> SameButOutputs(vs[k], vs'[k])
    decreases node, 2
  {
    ghost var level := g.nodes;
    ghost var body;
    ok, n, body, sub' := PrepareNode(g, node, vs, ins, sub);
    vs', ins' := vs, ins;
    NodeResolvableParts(node, |vs|);
    if ok {
      ins' := PushNode(g, n, body, vs, ins, sub');
      var inputs := Items(Field(node, "inputs"));
      ok := FinishNode(g, n, inputs, nodeMap, level, body, vs, ins', sub');
      if ok {
        vs' := WithConsumer(vs, body.(inputs := RefsOf(inputs)));
        NodeDone(node, |vs|, body);
      }
    }
  }

  lemma NodeResolvableParts(node: JsonVal, i: int)
    ensures NodeResolvable(node, i) <==>
      AllResolvable(Items(Field(node, "subgraphs"))) && InputsResolvable(Items(Field(node, "inputs")), i)
  {
  }

  lemma NodeDone(node: JsonVal, i: int, body: NodeVal)
    requires NodeResolvable(node, i) && AllResolvable(Items(Field(node, "subgraphs"))) && BodyBuilt(node, body)
    ensures NodeBuilt(node, i, body.(inputs := RefsOf(Items(Field(node, "inputs")))))
  {
  }

  ghost predicate NodesResolvable(items: seq<JsonVal>)
  {
    forall i :: 0 <= i < |items| ==> NodeResolvable(items[i], i)
  }

  predicate HaveRefs(items: seq<JsonVal>)
  {
    forall h :: h in items ==> HasRef(h)
  }

  lemma ResolvableParts(val: JsonVal)
    ensures Resolvable(val) <==> NodesResolvable(Items(Field(val, "nodes"))) && HaveRefs(Items(Field(val, "heads")))
  {
  }

  lemma StillBuilt(items: seq<JsonVal>, i: nat, vs: seq<NodeVal>, vs': seq<NodeVal>)
    requires i < |items| && NodesBuilt(items[..i], vs) && |vs'| == i + 1 && NodeRead(items[i], i, vs'[i])
    requires forall k :: 0 <= k < i ==> SameButOutputs(vs[k], vs'[k])
    ensures NodesBuilt(items[..i + 1], vs')
  {
    forall k | 0 <= k < i
      ensures NodeRead(items[k], k, vs'[k])
    {
      assert items[..i][k] == items[k];
      OutputsIrrelevant(items[k], k, vs[k], vs'[k]);
    }
  }

  lemma OutputsIrrelevant(j: JsonVal, i: int, v: NodeVal, v': NodeVal)
    requires NodeRead(j, i, v) && SameButOutputs(v, v')
    ensures NodeRead(j, i, v')
  {
  }

  method ReadNodes(g: Graph, items: seq<JsonVal>)
    returns (ok: bool, nodeMap: map<int, Node>, ghost vs: seq<NodeVal>, ghost ins: seq<int>, ghost sub: set<object>)
    requires g.nodes == [] && g.inputs == []
    modifies g`nodes, g`inputs
    ensures ok ==> fresh(sub) && fresh(set m | m in g.nodes)
    ensures ok <==> NodesResolvable(items)
    ensures ok ==> PartlyBuilt(g, vs, ins, sub) && NodesBuilt(items, vs) && IsTable(nodeMap, g.nodes)
    decreases items
  {
    nodeMap, vs, ins, sub := map[], [], [], {};
    for i := 0 to |items|
      invariant |g.nodes| == i && fresh(sub) && fresh(set m | m in g.nodes)
      invariant PartlyBuilt(g, vs, ins, sub) && NodesBuilt(items[..i], vs) && IsTable(nodeMap, g.nodes)
    {
      ghost var vs', ins', sub';
      var n;
      ok, n, vs', ins', sub' := AddNode(g, items[i], nodeMap, vs, ins, sub);
      if !ok {
        return false, nodeMap, vs, ins, sub;
      }
      StillBuilt(items, i, vs, vs');
      nodeMap := nodeMap[i := n];
      vs, ins, sub := vs', ins', sub';
    }
    assert items[..|items|] == items;
    return true, nodeMap, vs, ins, sub;
  }

  /** The graph's outputs; a number that names no node leaves a null pointer. */
  method ReadHeads(items: seq<JsonVal>, nodeMap: map<int, Node>, ghost level: seq<Node>)
    returns (ok: bool, outputs: seq<NodeEntry>, ghost heads: seq<Ref>)
    requires IsTable(nodeMap, level)
    ensures ok <==> HaveRefs(items)
    ensures ok ==> EntriesAre(outputs, heads, level) && |heads| == |items|
    ensures ok ==> forall i :: 0 <= i < |items| ==> items[i] in items && heads[i] == HeadOf(items[i], |level|)
  {
    outputs, heads := [], [];
    for i := 0 to |items|
      invariant |outputs| == i && EntriesAre(outputs, heads, level)
      invariant forall k :: 0 <= k < i ==> HasRef(items[k]) && heads[k] == HeadOf(items[k], |level|)
    {
      var head := Items(items[i]);
      if |head| < 2 {
        assert items[i] in items;
        return false, outputs, heads;
      }
      var num := NumOf(head[0]);
      var node: Node? := if num in nodeMap then nodeMap[num] else null;
      outputs := outputs + [NodeEntry(node, NumOf(head[1]))];
      heads := heads + [HeadOf(items[i], |level|)];
    }
    return true, outputs, heads;
  }

  /** `Graph::fromJson`; `null` where the source would follow a null pointer. */
  method FromJson(val: JsonVal) returns (g: Graph?, ghost w: GraphVal, ghost fp: set<object>)
    ensures fresh(fp)
    ensures g != null <==> Resolvable(val)
    ensures g != null ==> GraphIs(g, w, fp) && Built(val, w)
    decreases val
  {
    var ok, graph, outputs;
    ghost var vs, ins, sub, heads;
    ok, graph, outputs, vs, ins, sub, heads, fp := ReadParts(val);
    if !ok { return null, Partial([]), {}; }
    w := SetOutputs(graph, outputs, MembersOf(val) - RESERVED, vs, ins, sub, heads, fp);
    AllBuilt(val, w);
    return graph, w, fp;
  }

  method ReadBody(val: JsonVal, items: seq<JsonVal>)
    returns (ok: bool, graph: Graph, nodeMap: map<int, Node>, ghost vs: seq<NodeVal>, ghost ins: seq<int>,
        ghost sub: set<object>, ghost fp: set<object>)
    requires items == Items(Field(val, "nodes"))
    ensures fresh(fp) && fresh(graph)
    ensures ok <==> NodesResolvable(items)
    ensures ok ==> PartlyBuilt(graph, vs, ins, sub) && NodesBuilt(items, vs) && IsTable(nodeMap, graph.nodes)
    ensures ok ==> sub <= fp && graph in fp && forall m :: m in graph.nodes ==> m in fp
    decreases val, 0
  {
    graph := new Graph();
    fp := {graph};
    ok, nodeMap, vs, ins, sub := true, map[], [], [], {};
    if |items| > 0 {
      ok, nodeMap, vs, ins, sub := ReadNodes(graph, items);
    }
    if ok {
      fp := sub + {graph} + set m | m in graph.nodes;
    }
  }

  method ReadParts(val: JsonVal)
    returns (ok: bool, graph: Graph, outputs: seq<NodeEntry>, ghost vs: seq<NodeVal>, ghost ins: seq<int>,
        ghost sub: set<object>, ghost heads: seq<Ref>, ghost fp: set<object>)
    ensures fresh(fp) && fresh(graph)
    ensures ok <==> Resolvable(val)
    ensures ok ==> PartlyBuilt(graph, vs, ins, sub) && NodesBuilt(Items(Field(val, "nodes")), vs)
    ensures ok ==> sub <= fp && graph in fp && forall m :: m in graph.nodes ==> m in fp
    ensures ok ==>
      EntriesAre(outputs, heads, graph.nodes) && HeadsBuilt(Items(Field(val, "heads")), GraphVal(vs, ins, heads, map[]))
    decreases val, 1
  {
    ResolvableParts(val);
    var nodeMap;
    outputs, heads := [], [];
    ok, graph, nodeMap, vs, ins, sub, fp := ReadBody(val, Items(Field(val, "nodes")));
    if ok {
      ok, outputs, heads := ReadHeads(Items(Field(val, "heads")), nodeMap, graph.nodes);
    }
  }

  method SetOutputs(g: Graph, outputs: seq<NodeEntry>, attrs: map<string, JsonVal>, ghost vs: seq<NodeVal>,
      ghost ins: seq<int>,
    ghost sub: set<object>, ghost heads: seq<Ref>, ghost fp: set<object>)
    returns (ghost w: GraphVal)
    requires PartlyBuilt(g, vs, ins, sub) && EntriesAre(outputs, heads, g.nodes)
    requires sub <= fp && g in fp && forall m :: m in g.nodes ==> m in fp
    modifies g`outputs, g`attrs
    ensures w == GraphVal(vs, ins, heads, attrs) && GraphIs(g, w, fp)
  {
    g.outputs := outputs;
    g.attrs := attrs;
    w := GraphVal(vs, ins, heads, attrs);
    Complete(g, vs, ins, sub, w, fp);
  }

  lemma Complete(g: Graph, vs: seq<NodeVal>, ins: seq<int>, sub: set<object>, w: GraphVal, fp: set<object>)
    requires PartlyBuilt(g, vs, ins, sub) && w.nodes == vs && w.inputs == ins
    requires EntriesAre(g.outputs, w.heads, g.nodes) && g.attrs == w.attrs
    requires sub <= fp && g in fp && forall m :: m in g.nodes ==> m in fp
    ensures GraphIs(g, w, fp)
  {
    forall k | 0 <= k < |vs|
      ensures SubgraphsAre(g.nodes[k].subgraphs, vs[k].subgraphs, fp)
    {
      SubgraphsAreMonotone(g.nodes[k].subgraphs, vs[k].subgraphs, sub, fp);
    }
  }

  lemma AllBuilt(val: JsonVal, w: GraphVal)
    requires NodesBuilt(Items(Field(val, "nodes")), w.nodes) && MirroredSoFar(w.nodes)
    requires InputsBuilt(GraphVal(w.nodes, w.inputs, [], map[]))
    requires HaveRefs(Items(Field(val, "heads")))
    requires HeadsBuilt(Items(Field(val, "heads")), w) && w.attrs == MembersOf(val) - RESERVED
    ensures Resolvable(val) && Built(val, w)
  {
    SameMirror(w.nodes, w);
  }

  lemma SameMirror(vs: seq<NodeVal>, w: GraphVal)
    requires MirroredSoFar(vs) && w.nodes == vs
    ensures forall k :: 0 <= k < |vs| ==> MirroredAt(w, k)
  {
    forall k | 0 <= k < |vs|
      ensures MirroredAt(w, k)
    {
      assert MirroredAt(Partial(vs), k);
      assert forall c, j :: Feeds(w, k, c, j) <==> Feeds(Partial(vs), k, c, j);
    }
  }
}
