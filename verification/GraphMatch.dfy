/** Writing a graph and reading it back: when it succeeds, and what comes back. */
module GraphMatch {
  import opened Json
  import opened Digraph
  import opened GraphValue
  import opened Permutations

  // ----- success -----

  lemma RefsJsonItems(refs: seq<Ref>, s: nat)
    requires s < |refs|
    ensures |Items(RefsJson(refs))| == |refs|
    ensures HasRef(Items(RefsJson(refs))[s]) && RefOf(Items(RefsJson(refs))[s]) == refs[s]
  {
  }

  /** The written inputs of node `i` resolve exactly when its producers have smaller numbers. */
  lemma InputsResolve(inputs: seq<Ref>, p: seq<int>, k: int)
    requires InRange(inputs, |p|)
    requires forall i :: 0 <= i < |p| ==> p[i] >= 0
    ensures InputsResolvable(Items(RefsJson(Renamed(inputs, p))), k)
      <==> forall s :: 0 <= s < |inputs| ==> p[inputs[s].node] < k
  {
    var items := Items(RefsJson(Renamed(inputs, p)));
    forall s | 0 <= s < |inputs|
      ensures HasRef(items[s]) && RefOf(items[s]).node == p[inputs[s].node] && items[s] in items
    {
      RefsJsonItems(Renamed(inputs, p), s);
    }
  }

  lemma {:induction false} NodeResolves(n: NodeVal, j: JsonVal, p: seq<int>, k: int)
    requires InRange(n.inputs, |p|) && (forall g :: g in n.subgraphs ==> Linked(g) && Mirrored(g))
    requires NodeJson(n, j, p) && forall i :: 0 <= i < |p| ==> p[i] >= 0
    ensures NodeResolvable(j, k) <==>
      AllAcyclic(n.subgraphs) && (forall s :: 0 <= s < |n.inputs| ==> p[n.inputs[s].node] < k)
    decreases n
  {
    var inputs, gs := Items(Field(j, "inputs")), Items(Field(j, "subgraphs"));
    NodeJsonFields(n, j, p);
    InputsResolve(n.inputs, p, k);
    SubgraphsResolve(n.subgraphs, gs);
    assert NodeResolvable(j, k) <==> AllResolvable(gs) && InputsResolvable(inputs, k);
  }

  lemma NodeJsonFields(n: NodeVal, j: JsonVal, p: seq<int>)
    requires InRange(n.inputs, |p|) && (forall g :: g in n.subgraphs ==> Linked(g)) && NodeJson(n, j, p)
    ensures Field(j, "inputs") == RefsJson(Renamed(n.inputs, p))
    ensures var gs := Items(Field(j, "subgraphs"));
      |gs| == |n.subgraphs| && forall s :: 0 <= s < |gs| ==> IsJson(n.subgraphs[s], gs[s])
  {
  }

  lemma {:induction false} SubgraphsResolve(gs: seq<GraphVal>, items: seq<JsonVal>)
    requires |items| == |gs| && (forall g :: g in gs ==> Linked(g) && Mirrored(g))
    requires forall s :: 0 <= s < |gs| ==> IsJson(gs[s], items[s])
    ensures AllResolvable(items) <==> AllAcyclic(gs)
    decreases gs
  {
    forall s | 0 <= s < |gs|
      ensures items[s] in items && gs[s] in gs && (Resolvable(items[s]) <==> AcyclicDeep(gs[s]))
    {
      Resolves(gs[s], items[s]);
    }
  }

  /** `fromJson` accepts what `toJson` wrote exactly when the graph and all its subgraphs are acyclic. */
  lemma {:induction false} Resolves(v: GraphVal, j: JsonVal)
    requires Linked(v) && Mirrored(v) && IsJson(v, j)
    ensures Resolvable(j) <==> AcyclicDeep(v)
    decreases v
  {
    var p :| GraphJson(v, j, p);
    var items := Items(Field(j, "nodes"));
    forall i | 0 <= i < |v.nodes|
      ensures NodeResolvable(items[p[i]], p[i]) <==>
        && AllAcyclic(v.nodes[i].subgraphs)
        && (forall s :: 0 <= s < |v.nodes[i].inputs| ==> p[v.nodes[i].inputs[s].node] < p[i])
    {
      assert v.nodes[i] in v.nodes;
      NodeResolves(v.nodes[i], items[p[i]], p, p[i]);
    }
    HeadsHaveRefs(Renamed(v.heads, p));
    TopologicalMeans(v, p);
    if Resolvable(j) {
      assert Topological(v, p);
      RankedByNumbering(v, p);
    }
    if AcyclicDeep(v) {
      forall k | 0 <= k < |items|
        ensures NodeResolvable(items[k], k)
      {
        var i := PermOnto(p, |v.nodes|, k);
        assert v.nodes[i] in v.nodes;
      }
    }
  }

  lemma HeadsHaveRefs(heads: seq<Ref>)
    ensures forall h :: h in Items(RefsJson(heads)) ==> HasRef(h)
  {
  }

  lemma TopologicalMeans(v: GraphVal, p: seq<int>)
    requires Linked(v) && |p| == |v.nodes|
    ensures Topological(v, p) <==>
      forall i, s :: 0 <= i < |v.nodes| && 0 <= s < |v.nodes[i].inputs| ==> p[v.nodes[i].inputs[s].node] < p[i]
  {
    var g := Deps(v);
    forall i, s | 0 <= i < |v.nodes| && 0 <= s < |v.nodes[i].inputs|
      ensures 0 <= v.nodes[i].inputs[s].node < |v.nodes| && Edge(g, i, v.nodes[i].inputs[s].node)
    {
      assert v.nodes[i] in v.nodes && v.nodes[i].inputs[s] in v.nodes[i].inputs;
    }
  }

  lemma RankedByNumbering(v: GraphVal, p: seq<int>)
    requires Linked(v) && IsPerm(p, |v.nodes|) && Topological(v, p)
    ensures Acyclic(Deps(v))
  {
    var rank := map i | i in Below(|v.nodes|) :: p[i] as nat;
    assert Ranked(Deps(v), rank);
    AcyclicIffRanked(Deps(v));
  }

  // ----- what comes back -----

  lemma {:induction false} NodeMatches(n: NodeVal, j: JsonVal, p: seq<int>, k: int, m: NodeVal)
    requires InRange(n.inputs, |p|) && (forall g :: g in n.subgraphs ==> Linked(g) && Mirrored(g))
    requires NodeJson(n, j, p) && NodeResolvable(j, k) && NodeBuilt(j, k, m)
    ensures m.op == n.op && m.name == n.name && m.attrs == n.attrs
    ensures m.inputs == Renamed(n.inputs, p)
    ensures |m.subgraphs| == |n.subgraphs| && forall s :: 0 <= s < |n.subgraphs| ==> Iso(n.subgraphs[s], m.subgraphs[s])
    decreases n
  {
    forall s | 0 <= s < |n.inputs|
      ensures m.inputs[s] == Renamed(n.inputs, p)[s]
    {
      RefsJsonItems(Renamed(n.inputs, p), s);
    }
    var gs := Items(Field(j, "subgraphs"));
    forall s | 0 <= s < |n.subgraphs|
      ensures Iso(n.subgraphs[s], m.subgraphs[s])
    {
      assert gs[s] in gs;
      BuiltIso(n.subgraphs[s], gs[s], m.subgraphs[s]);
    }
  }

  /** Output lists come back as the same multiset. */
  lemma OutputsMatch(v: GraphVal, w: GraphVal, p: seq<int>, i: nat)
    requires Linked(v) && IsPerm(p, |v.nodes|) && |w.nodes| == |v.nodes| && i < |v.nodes|
    requires forall c :: 0 <= c < |v.nodes| ==> w.nodes[p[c]].inputs == Renamed(v.nodes[c].inputs, p)
    requires MirroredAt(v, i) && MirroredAt(w, p[i])
    requires InRange(v.nodes[i].outputs, |p|)
    ensures multiset(w.nodes[p[i]].outputs) == multiset(Renamed(v.nodes[i].outputs, p))
  {
    var outs, ren := v.nodes[i].outputs, Renamed(v.nodes[i].outputs, p);
    forall a, b | 0 <= a < b < |ren|
      ensures ren[a] != ren[b]
    {
      assert outs[a] in outs && outs[b] in outs;
      NumberDetermines(p, |p|, outs[a].node, outs[b].node);
    }
    forall r
      ensures r in w.nodes[p[i]].outputs <==> r in ren
    {
      if r in ren {
        var a :| 0 <= a < |ren| && ren[a] == r;
        assert outs[a] in outs;
        FeedsMatch(v, w, p, i, outs[a].node, r.entry);
      }
      if r in w.nodes[p[i]].outputs {
        assert Feeds(w, p[i], r.node, r.entry);
        var c := PermOnto(p, |v.nodes|, r.node);
        FeedsMatch(v, w, p, i, c, r.entry);
        assert Ref(c, r.entry) in outs;
        var a :| 0 <= a < |outs| && outs[a] == Ref(c, r.entry);
        assert ren[a] == r;
      }
    }
    SameElements(w.nodes[p[i]].outputs, ren);
  }

  lemma FeedsMatch(v: GraphVal, w: GraphVal, p: seq<int>, k: int, c: int, j: int)
    requires Linked(v) && IsPerm(p, |v.nodes|) && |w.nodes| == |v.nodes|
    requires 0 <= k < |v.nodes| && 0 <= c < |v.nodes|
    requires w.nodes[p[c]].inputs == Renamed(v.nodes[c].inputs, p)
    ensures Feeds(v, k, c, j) <==> Feeds(w, p[k], p[c], j)
  {
    assert v.nodes[c] in v.nodes;
    if 0 <= j < |v.nodes[c].inputs| {
      var r := v.nodes[c].inputs[j];
      assert r in v.nodes[c].inputs;
      NumberDetermines(p, |p|, r.node, k);
    }
  }

  lemma HeadsMatch(heads: seq<Ref>, p: seq<int>, w: GraphVal)
    requires InRange(heads, |p|) && IsPerm(p, |p|) && |w.nodes| == |p|
    requires HeadsHave(heads, p) && HeadsBuilt(Items(RefsJson(Renamed(heads, p))), w)
    ensures w.heads == Renamed(heads, p)
  {
    forall i | 0 <= i < |heads|
      ensures w.heads[i] == Renamed(heads, p)[i]
    {
      RefsJsonItems(Renamed(heads, p), i);
      assert heads[i] in heads;
    }
  }

  ghost predicate HeadsHave(heads: seq<Ref>, p: seq<int>)
    requires InRange(heads, |p|)
  {
    forall h :: h in Items(RefsJson(Renamed(heads, p))) ==> HasRef(h)
  }

  /** Whatever `fromJson` builds from what `toJson` wrote is the same graph up to numbering. */
  lemma {:induction false} BuiltIso(v: GraphVal, j: JsonVal, w: GraphVal)
    requires Linked(v) && Mirrored(v) && IsJson(v, j) && Resolvable(j) && Built(j, w)
    ensures Iso(v, w)
    decreases v
  {
    var p :| GraphJson(v, j, p);
    var items := Items(Field(j, "nodes"));
    forall i | 0 <= i < |v.nodes|
      ensures var n, m := v.nodes[i], w.nodes[p[i]];
        && m.op == n.op && m.name == n.name && m.attrs == n.attrs && m.inputs == Renamed(n.inputs, p)
        && |m.subgraphs| == |n.subgraphs| && forall s :: 0 <= s < |n.subgraphs| ==> Iso(n.subgraphs[s], m.subgraphs[s])
    {
      assert v.nodes[i] in v.nodes;
      NodeMatches(v.nodes[i], items[p[i]], p, p[i], w.nodes[p[i]]);
    }
    forall i | 0 <= i < |v.nodes|
      ensures NodeIso(v.nodes[i], w.nodes[p[i]], p)
    {
      assert v.nodes[i] in v.nodes;
      OutputsMatch(v, w, p, i);
    }
    HeadsMatch(v.heads, p, w);
    assert w.attrs == v.attrs - RESERVED;
    assert IsoVia(v, w, p);
  }

  // ----- only one graph comes back -----

  lemma {:induction false} AscendingUnique(a: seq<Ref>, b: seq<Ref>)
    requires Ascending(a) && Ascending(b) && forall r :: r in a <==> r in b
    ensures a == b
    decreases |a|
  {
    assert b != [] ==> b[0] in b;
    if a != [] {
      assert a[0] in a && a[0] in b && b[0] in a;
      var c, d := a[1..], b[1..];
      assert a == [a[0]] + c && b == [b[0]] + d;
      forall r
        ensures r in c <==> r in d
      {
        assert r in c <==> r in a && r != a[0];
        assert r in d <==> r in b && r != b[0];
      }
      AscendingUnique(c, d);
    }
  }

  lemma OutputsUnique(w: GraphVal, u: GraphVal, k: int)
    requires |w.nodes| == |u.nodes| && 0 <= k < |w.nodes| && MirroredAt(w, k) && MirroredAt(u, k)
    requires forall c :: 0 <= c < |w.nodes| ==> w.nodes[c].inputs == u.nodes[c].inputs
    requires Ascending(w.nodes[k].outputs) && Ascending(u.nodes[k].outputs)
    ensures w.nodes[k].outputs == u.nodes[k].outputs
  {
    forall r
      ensures r in w.nodes[k].outputs <==> r in u.nodes[k].outputs
    {
      assert r == Ref(r.node, r.entry);
      assert Feeds(w, k, r.node, r.entry) <==> Feeds(u, k, r.node, r.entry);
    }
    AscendingUnique(w.nodes[k].outputs, u.nodes[k].outputs);
  }

  lemma {:induction false} NodeUnique(j: JsonVal, i: int, n: NodeVal, m: NodeVal)
    requires NodeResolvable(j, i) && NodeBuilt(j, i, n) && NodeBuilt(j, i, m)
    ensures m == n.(outputs := m.outputs)
    decreases j
  {
    var gs := Items(Field(j, "subgraphs"));
    forall s | 0 <= s < |gs|
      ensures n.subgraphs[s] == m.subgraphs[s]
    {
      assert gs[s] in gs;
      BuiltUnique(gs[s], n.subgraphs[s], m.subgraphs[s]);
    }
    assert n.subgraphs == m.subgraphs && n.inputs == m.inputs;
  }

  /** From given JSON `fromJson` builds one graph only, order of all lists included. */
  lemma {:induction false} BuiltUnique(j: JsonVal, w: GraphVal, u: GraphVal)
    requires Resolvable(j) && Built(j, w) && Built(j, u)
    ensures w == u
    decreases j
  {
    var nodes := Items(Field(j, "nodes"));
    forall i | 0 <= i < |nodes|
      ensures u.nodes[i] == w.nodes[i].(outputs := u.nodes[i].outputs)
    {
      NodeUnique(nodes[i], i, w.nodes[i], u.nodes[i]);
    }
    forall i | 0 <= i < |nodes|
      ensures u.nodes[i] == w.nodes[i]
    {
      OutputsUnique(w, u, i);
    }
    assert u.nodes == w.nodes;
    IncreasingUnique(w.inputs, u.inputs);
    assert u.heads == w.heads;
  }

  // ----- when nothing at all is lost -----

  /** Whatever is read back is conventional. */
  lemma {:induction false} IsoIsConventional(v: GraphVal, w: GraphVal)
    requires Linked(v) && Iso(v, w)
    ensures Conventional(w)
    decreases v
  {
    var p :| IsoVia(v, w, p);
    forall k | 0 <= k < |w.nodes|
      ensures k in w.inputs <==> w.nodes[k].op == "null"
      ensures AllConventional(w.nodes[k].subgraphs)
    {
      var i := PermOnto(p, |v.nodes|, k);
      var n, m := v.nodes[i], w.nodes[k];
      assert n in v.nodes && NodeIso(n, m, p);
      forall s | 0 <= s < |n.subgraphs|
        ensures Conventional(m.subgraphs[s])
      {
        IsoIsConventional(n.subgraphs[s], m.subgraphs[s]);
      }
    }
  }

  lemma {:induction false} SameIsConventional(v: GraphVal, w: GraphVal)
    requires Linked(v) && Same(v, w) && Conventional(w)
    ensures Conventional(v)
    decreases v
  {
    var p :| SameVia(v, w, p);
    forall i | 0 <= i < |v.nodes|
      ensures i in v.inputs <==> v.nodes[i].op == "null"
      ensures AllConventional(v.nodes[i].subgraphs)
    {
      var n, m := v.nodes[i], w.nodes[p[i]];
      assert n in v.nodes && m in w.nodes && NodeSame(n, m, p);
      forall s | 0 <= s < |n.subgraphs|
        ensures Conventional(n.subgraphs[s])
      {
        SameIsConventional(n.subgraphs[s], m.subgraphs[s]);
      }
    }
  }

  lemma {:induction false} ConventionalIsSame(v: GraphVal, w: GraphVal)
    requires Linked(v) && Iso(v, w) && Conventional(v)
    ensures Same(v, w)
    decreases v
  {
    var p :| IsoVia(v, w, p);
    forall i | 0 <= i < |v.nodes|
      ensures NodeSame(v.nodes[i], w.nodes[p[i]], p)
    {
      var n, m := v.nodes[i], w.nodes[p[i]];
      assert n in v.nodes && NodeIso(n, m, p) && AllConventional(n.subgraphs);
      forall s | 0 <= s < |n.subgraphs|
        ensures Same(n.subgraphs[s], m.subgraphs[s])
      {
        ConventionalIsSame(n.subgraphs[s], m.subgraphs[s]);
      }
    }
    assert v.attrs - RESERVED == v.attrs;
    assert SameVia(v, w, p);
  }

  /** A graph that comes back renumbered has the same inputs and attributes, at every level,
      if and only if it lists exactly its "null" nodes as inputs and uses no reserved name. */
  lemma SameIffConventional(v: GraphVal, w: GraphVal)
    requires Linked(v) && Iso(v, w)
    ensures Same(v, w) <==> Conventional(v)
  {
    IsoIsConventional(v, w);
    if Same(v, w) { SameIsConventional(v, w); }
    if Conventional(v) { ConventionalIsSame(v, w); }
  }

  /** A graph with one input node that it does not list, as `addNode` leaves it. */
  function Unlisted(name: string): GraphVal
  {
    GraphVal([NodeVal("null", name, map[], [], [], [])], [], [], map[])
  }

  /** After a round trip the node is listed, so the graph is not the same. */
  lemma UnlistedInput(name: string, j: JsonVal, w: GraphVal)
    ensures var v := Unlisted(name);
      Linked(v) && Mirrored(v) && (IsJson(v, j) && Resolvable(j) && Built(j, w) ==> !Same(v, w))
  {
    var v := Unlisted(name);
    assert v.nodes[0].op == "null" && !(0 in v.inputs);
    forall c, j
      ensures !Feeds(v, 0, c, j)
    {
    }
    if IsJson(v, j) && Resolvable(j) && Built(j, w) {
      BuiltIso(v, j, w);
      SameIffConventional(v, w);
    }
  }
}
