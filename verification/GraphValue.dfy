/** Extension-library graphs as values (src/lib_api.cc), with nodes referred to by index:
    what their JSON form is, what a graph read from JSON looks like, and that the two match. */
module GraphValue {
  import opened Json
  import opened Digraph
  import opened JsonReading
  import opened JsonRoundTrip
  import opened Permutations

  /** A `NodeEntry`; `NULL` stands for the null pointer. */
  datatype Ref = Ref(node: int, entry: int)
  const NULL := -1

  datatype NodeVal = NodeVal(
    op: string, name: string, attrs: map<string, string>,
    inputs: seq<Ref>, outputs: seq<Ref>, subgraphs: seq<GraphVal>)

  datatype GraphVal = GraphVal(
    nodes: seq<NodeVal>, inputs: seq<int>, heads: seq<Ref>, attrs: map<string, JsonVal>)

  const RESERVED := {"nodes", "heads", "node_row_ptr", "arg_nodes"}

  // ----- structure -----

  predicate InRange(refs: seq<Ref>, n: nat)
  {
    forall i :: 0 <= i < |refs| ==> 0 <= refs[i].node < n
  }

  /** Every reference stays inside its own graph. */
  ghost predicate Linked(v: GraphVal)
    decreases v
  {
    && (forall i :: 0 <= i < |v.inputs| ==> 0 <= v.inputs[i] < |v.nodes|)
    && InRange(v.heads, |v.nodes|)
    && forall n :: n in v.nodes ==>
         InRange(n.inputs, |v.nodes|) && InRange(n.outputs, |v.nodes|) && forall g :: g in n.subgraphs ==> Linked(g)
  }

  /** Slot `j` of node `c` is fed by node `k`. */
  predicate Feeds(v: GraphVal, k: int, c: int, j: int)
  {
    0 <= c < |v.nodes| && 0 <= j < |v.nodes[c].inputs| && v.nodes[c].inputs[j].node == k
  }

  /** The output list of a node names each input slot it feeds exactly once. */
  ghost predicate MirroredAt(v: GraphVal, k: int)
    requires 0 <= k < |v.nodes|
  {
    var outs := v.nodes[k].outputs;
    && (forall i, j :: 0 <= i < j < |outs| ==> outs[i] != outs[j])
    && forall c, j :: Ref(c, j) in outs <==> Feeds(v, k, c, j)
  }

  ghost predicate Mirrored(v: GraphVal)
    decreases v
  {
    && (forall k :: 0 <= k < |v.nodes| ==> MirroredAt(v, k))
    && forall n :: n in v.nodes ==> forall g :: g in n.subgraphs ==> Mirrored(g)
  }

  /** The dependency graph: each node points at the nodes it takes inputs from. */
  ghost function Deps(v: GraphVal): (g: Adjacency)
    requires Linked(v)
    ensures |g| == |v.nodes|
    ensures forall a: nat, b: nat :: Edge(g, a, b) <==>
      a < |v.nodes| && exists j :: 0 <= j < |v.nodes[a].inputs| && v.nodes[a].inputs[j].node == b
  {
    seq(|v.nodes|, i requires 0 <= i < |v.nodes| => InputNodes(v.nodes[i].inputs, |v.nodes|))
  }

  ghost function InputNodes(refs: seq<Ref>, n: nat): (s: seq<nat>)
    requires InRange(refs, n)
    ensures |s| == |refs| && forall j :: 0 <= j < |s| ==> s[j] == refs[j].node < n
  {
    if refs == [] then [] else [refs[0].node] + InputNodes(refs[1..], n)
  }

  ghost predicate AcyclicDeep(v: GraphVal)
    requires Linked(v)
    decreases v
  {
    && Acyclic(Deps(v))
    && forall n :: n in v.nodes ==> AllAcyclic(n.subgraphs)
  }

  ghost predicate AllAcyclic(gs: seq<GraphVal>)
    requires forall g :: g in gs ==> Linked(g)
    decreases gs
  {
    forall g :: g in gs ==> AcyclicDeep(g)
  }

  // ----- the JSON form -----

  function RefJson(r: Ref): JsonVal
  {
    List([FromInt(r.node), FromInt(r.entry), FromInt(0)])
  }

  function Renamed(refs: seq<Ref>, p: seq<int>): (out: seq<Ref>)
    requires InRange(refs, |p|)
    ensures |out| == |refs|
    ensures forall i :: 0 <= i < |refs| ==> out[i] == Ref(p[refs[i].node], refs[i].entry)
  {
    seq(|refs|, i requires 0 <= i < |refs| => Ref(p[refs[i].node], refs[i].entry))
  }

  function RenamedInts(ints: seq<int>, p: seq<int>): (out: seq<int>)
    requires forall i :: 0 <= i < |ints| ==> 0 <= ints[i] < |p|
    ensures |out| == |ints| && forall i :: 0 <= i < |ints| ==> out[i] == p[ints[i]]
  {
    seq(|ints|, i requires 0 <= i < |ints| => p[ints[i]])
  }

  function RefsJson(refs: seq<Ref>): JsonVal
  {
    List(seq(|refs|, i requires 0 <= i < |refs| => RefJson(refs[i])))
  }

  function IntsJson(ints: seq<int>): JsonVal
  {
    List(seq(|ints|, i requires 0 <= i < |ints| => FromInt(ints[i])))
  }

  function AttrsJson(attrs: map<string, string>): JsonVal
  {
    Map(map k | k in attrs :: Str(attrs[k]))
  }

  /** `j` is what `toJson` writes for node `n` under the numbering `p`. */
  ghost predicate NodeJson(n: NodeVal, j: JsonVal, p: seq<int>)
    requires InRange(n.inputs, |p|) && forall g :: g in n.subgraphs ==> Linked(g)
    decreases n
  {
    && j.Map?
    && j.members.Keys == {"op", "name", "inputs", "attrs"} + (if n.subgraphs == [] then {} else {"subgraphs"})
    && j.members["op"] == Str(n.op)
    && j.members["name"] == Str(n.name)
    && j.members["inputs"] == RefsJson(Renamed(n.inputs, p))
    && j.members["attrs"] == AttrsJson(n.attrs)
    && (n.subgraphs != [] ==> SubgraphsJson(n.subgraphs, j.members["subgraphs"]))
  }

  ghost predicate SubgraphsJson(gs: seq<GraphVal>, j: JsonVal)
    requires forall g :: g in gs ==> Linked(g)
    decreases gs
  {
    j.List? && |j.items| == |gs| && forall s :: 0 <= s < |gs| ==> IsJson(gs[s], j.items[s])
  }

  /** Producers get smaller numbers than their consumers. */
  ghost predicate Topological(v: GraphVal, p: seq<int>)
    requires Linked(v) && |p| == |v.nodes|
  {
    forall a: nat, b: nat :: Edge(Deps(v), a, b) ==> p[b] < p[a]
  }

  /** `j` is what `toJson` writes for graph `v` when node `i` gets number `p[i]`. */
  ghost predicate GraphJson(v: GraphVal, j: JsonVal, p: seq<int>)
    requires Linked(v)
    decreases v, 0
  {
    && IsPerm(p, |v.nodes|)
    && (Acyclic(Deps(v)) && (forall k :: 0 <= k < |v.nodes| ==> MirroredAt(v, k)) ==> Topological(v, p))
    && j.Map?
    && j.members.Keys == v.attrs.Keys + RESERVED
    && (forall k :: k in v.attrs && k !in RESERVED ==> j.members[k] == v.attrs[k])
    && j.members["node_row_ptr"] == IntsJson(seq(|v.nodes|, i => i))
    && j.members["arg_nodes"] == IntsJson(RenamedInts(v.inputs, p))
    && j.members["heads"] == RefsJson(Renamed(v.heads, p))
    && j.members["nodes"].List? && |j.members["nodes"].items| == |v.nodes|
    && forall i :: 0 <= i < |v.nodes| ==> NodeJson(v.nodes[i], j.members["nodes"].items[p[i]], p)
  }

  ghost predicate IsJson(v: GraphVal, j: JsonVal)
    requires Linked(v)
    decreases v, 1
  {
    exists p :: GraphJson(v, j, p)
  }

  // ----- graphs read from JSON -----

  /** `val.map[key]`: a missing key, or a value that is no map, gives the default value. */
  function Field(j: JsonVal, key: string): (r: JsonVal)
  {
    if j.Map? && key in j.members then j.members[key] else Err
  }

  function Items(j: JsonVal): seq<JsonVal> { if j.List? then j.items else [] }

  function NumOf(j: JsonVal): int { if j.Num? then j.n else -1 }

  function StrOf(j: JsonVal): string
  {
    match j
    case Str(s) => s
    case Num(_, text) => text
    case _ => ""
  }

  function MembersOf(j: JsonVal): map<string, JsonVal> { if j.Map? then j.members else map[] }

  /** A reference is read from the first two numbers of a list. */
  predicate HasRef(j: JsonVal) { |Items(j)| >= 2 }

  function RefOf(j: JsonVal): Ref
    requires HasRef(j)
  {
    Ref(NumOf(Items(j)[0]), NumOf(Items(j)[1]))
  }

  /** No reference is out of bounds, and every input names an earlier node: otherwise
      `fromJson` dereferences a null pointer. */
  ghost predicate Resolvable(j: JsonVal)
    decreases j
  {
    var nodes := Items(Field(j, "nodes"));
    && (forall i :: 0 <= i < |nodes| ==> NodeResolvable(nodes[i], i))
    && forall h :: h in Items(Field(j, "heads")) ==> HasRef(h)
  }

  ghost predicate NodeResolvable(j: JsonVal, i: int)
    decreases j
  {
    && (forall g :: g in Items(Field(j, "subgraphs")) ==> Resolvable(g))
    && InputsResolvable(Items(Field(j, "inputs")), i)
  }

  ghost predicate AllResolvable(gs: seq<JsonVal>)
  {
    forall g :: g in gs ==> Resolvable(g)
  }

  predicate InputsResolvable(inputs: seq<JsonVal>, i: int)
  {
    forall e :: e in inputs ==> HasRef(e) && 0 <= RefOf(e).node < i
  }

  /** The graph `w` is the one `fromJson` builds from `j`. */
  ghost predicate Built(j: JsonVal, w: GraphVal)
    requires Resolvable(j)
    decreases j
  {
    var nodes, heads := Items(Field(j, "nodes")), Items(Field(j, "heads"));
    && |w.nodes| == |nodes|
    && (forall i :: 0 <= i < |nodes| ==> NodeBuilt(nodes[i], i, w.nodes[i]))
    && (forall k :: 0 <= k < |nodes| ==> MirroredAt(w, k))
    && OutputsBuilt(w.nodes)
    && InputsBuilt(w)
    && HeadsBuilt(heads, w)
    && w.attrs == MembersOf(j) - RESERVED
  }

  /** Output lists are in the order of consumers and their input slots. */
  ghost predicate OutputsBuilt(nodes: seq<NodeVal>)
  {
    forall k :: 0 <= k < |nodes| ==> Ascending(nodes[k].outputs)
  }

  predicate Ascending(refs: seq<Ref>)
  {
    forall x, y :: 0 <= x < y < |refs| ==>
      refs[x].node < refs[y].node || (refs[x].node == refs[y].node && refs[x].entry < refs[y].entry)
  }

  ghost predicate InputsBuilt(w: GraphVal)
  {
    && (forall i, j :: 0 <= i < j < |w.inputs| ==> w.inputs[i] < w.inputs[j])
    && forall i :: i in w.inputs <==> 0 <= i < |w.nodes| && w.nodes[i].op == "null"
  }

  ghost predicate HeadsBuilt(heads: seq<JsonVal>, w: GraphVal)
    requires forall h :: h in heads ==> HasRef(h)
  {
    && |w.heads| == |heads|
    && forall i :: 0 <= i < |heads| ==> w.heads[i] == HeadOf(heads[i], |w.nodes|)
  }

  /** A head may name no node; its pointer is then null. */
  function HeadOf(h: JsonVal, n: nat): Ref
    requires HasRef(h)
  {
    var r := RefOf(h);
    if 0 <= r.node < n then r else Ref(NULL, r.entry)
  }

  ghost predicate NodeBuilt(j: JsonVal, i: int, n: NodeVal)
    requires NodeResolvable(j, i)
    decreases j
  {
    var inputs, subgraphs := Items(Field(j, "inputs")), Items(Field(j, "subgraphs"));
    && n.op == StrOf(Field(j, "op"))
    && n.name == StrOf(Field(j, "name"))
    && n.attrs == (map k | k in MembersOf(Field(j, "attrs")) :: StrOf(MembersOf(Field(j, "attrs"))[k]))
    && |n.inputs| == |inputs|
    && (forall s :: 0 <= s < |inputs| ==> n.inputs[s] == RefOf(inputs[s]))
    && |n.subgraphs| == |subgraphs|
    && forall s :: 0 <= s < |subgraphs| ==> Built(subgraphs[s], n.subgraphs[s])
  }

  // ----- the two directions match -----

  /** `w` is `v` with node `i` moved to `p[i]`: same operators, names and attributes, same
      input entries in the same order, same heads, output lists equal as multisets, and the
      graph inputs exactly the "null" nodes; subgraphs likewise. */
  ghost predicate IsoVia(v: GraphVal, w: GraphVal, p: seq<int>)
    requires Linked(v)
    decreases v, 0
  {
    && IsPerm(p, |v.nodes|)
    && |w.nodes| == |v.nodes|
    && (forall i :: 0 <= i < |v.nodes| ==> NodeIso(v.nodes[i], w.nodes[p[i]], p))
    && (forall i :: 0 <= i < |v.nodes| ==> (p[i] in w.inputs <==> v.nodes[i].op == "null"))
    && w.heads == Renamed(v.heads, p)
    && w.attrs == v.attrs - RESERVED
  }

  ghost predicate NodeIso(n: NodeVal, m: NodeVal, p: seq<int>)
    requires InRange(n.inputs, |p|) && InRange(n.outputs, |p|) && forall g :: g in n.subgraphs ==> Linked(g)
    decreases n
  {
    && m.op == n.op && m.name == n.name && m.attrs == n.attrs
    && m.inputs == Renamed(n.inputs, p)
    && multiset(m.outputs) == multiset(Renamed(n.outputs, p))
    && |m.subgraphs| == |n.subgraphs|
    && forall s :: 0 <= s < |n.subgraphs| ==> Iso(n.subgraphs[s], m.subgraphs[s])
  }

  ghost predicate Iso(v: GraphVal, w: GraphVal)
    requires Linked(v)
    decreases v, 1
  {
    exists p :: IsoVia(v, w, p)
  }

  /** What the text format presupposes of a graph: it lists as inputs exactly its "null" nodes,
      and no attribute of it has the name of a structural field; subgraphs likewise. */
  ghost predicate Conventional(v: GraphVal)
    decreases v
  {
    && (forall i :: 0 <= i < |v.nodes| ==> (i in v.inputs <==> v.nodes[i].op == "null"))
    && v.attrs.Keys !! RESERVED
    && forall n :: n in v.nodes ==> AllConventional(n.subgraphs)
  }

  ghost predicate AllConventional(gs: seq<GraphVal>)
    decreases gs
  {
    forall g :: g in gs ==> Conventional(g)
  }

  /** A full isomorphism: graph inputs correspond as sets and all attributes are there. */
  ghost predicate SameVia(v: GraphVal, w: GraphVal, p: seq<int>)
    requires Linked(v)
    decreases v, 0
  {
    && IsPerm(p, |v.nodes|)
    && |w.nodes| == |v.nodes|
    && (forall i :: 0 <= i < |v.nodes| ==> NodeSame(v.nodes[i], w.nodes[p[i]], p))
    && (forall i :: 0 <= i < |v.nodes| ==> (i in v.inputs <==> p[i] in w.inputs))
    && w.heads == Renamed(v.heads, p)
    && w.attrs == v.attrs
  }

  ghost predicate NodeSame(n: NodeVal, m: NodeVal, p: seq<int>)
    requires InRange(n.inputs, |p|) && InRange(n.outputs, |p|) && forall g :: g in n.subgraphs ==> Linked(g)
    decreases n
  {
    && m.op == n.op && m.name == n.name && m.attrs == n.attrs
    && m.inputs == Renamed(n.inputs, p)
    && multiset(m.outputs) == multiset(Renamed(n.outputs, p))
    && AllSame(n.subgraphs, m.subgraphs)
  }

  ghost predicate AllSame(vs: seq<GraphVal>, ws: seq<GraphVal>)
    requires forall g :: g in vs ==> Linked(g)
    decreases vs
  {
    |ws| == |vs| && forall s :: 0 <= s < |vs| ==> Same(vs[s], ws[s])
  }

  ghost predicate Same(v: GraphVal, w: GraphVal)
    requires Linked(v)
    decreases v, 1
  {
    exists p :: SameVia(v, w, p)
  }

  lemma NumberDetermines(p: seq<int>, n: nat, a: int, b: int)
    requires IsPerm(p, n) && 0 <= a < n && 0 <= b < n
    ensures p[a] == p[b] ==> a == b
  {
  }

  lemma {:induction false} SameElements(a: seq<Ref>, b: seq<Ref>)
    requires forall i, j :: 0 <= i < j < |a| ==> a[i] != a[j]
    requires forall i, j :: 0 <= i < j < |b| ==> b[i] != b[j]
    requires forall r :: r in a <==> r in b
    ensures multiset(a) == multiset(b)
  {
    forall r
      ensures multiset(a)[r] == multiset(b)[r]
    {
      CountDistinct(a, r);
      CountDistinct(b, r);
    }
  }

  lemma {:induction false} CountDistinct(a: seq<Ref>, r: Ref)
    requires forall i, j :: 0 <= i < j < |a| ==> a[i] != a[j]
    ensures multiset(a)[r] == if r in a then 1 else 0
    decreases |a|
  {
    if a != [] {
      assert a == [a[0]] + a[1..];
      CountDistinct(a[1..], r);
    }
  }
}
