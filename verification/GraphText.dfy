/** Which graphs have a JSON form that survives printing. */
module GraphText {
  import opened Json
  import opened JsonReading
  import opened JsonRoundTrip
  import opened GraphValue
  import opened Permutations

  predicate SmallInt(n: int) { 0 <= n <= INT_MAX }

  predicate SmallEntries(refs: seq<Ref>)
  {
    forall i :: 0 <= i < |refs| ==> SmallInt(refs[i].entry)
  }

  /** Node numbers and entry numbers are non-negative `int`s, strings are safe unescaped, and the
      graph's own attributes survive, unless they are overwritten anyway. */
  ghost predicate Printable(v: GraphVal)
    decreases v
  {
    && |v.nodes| <= INT_MAX + 1
    && SmallEntries(v.heads)
    && PrintableAttrs(v.attrs)
    && forall n :: n in v.nodes ==> PrintableNode(n)
  }

  ghost predicate PrintableAttrs(attrs: map<string, JsonVal>)
  {
    forall k :: k in attrs && k !in RESERVED ==>
      SafeString(k) && (DumpSafe(attrs[k]) || (attrs[k].Err? && IsGreatest(attrs.Keys + RESERVED, k)))
  }

  ghost predicate PrintableNode(n: NodeVal)
    decreases n
  {
    && SafeString(n.op) && SafeString(n.name)
    && SafeStrings(n.attrs)
    && SmallEntries(n.inputs)
    && AllPrintable(n.subgraphs)
  }

  predicate SafeStrings(attrs: map<string, string>) { forall k :: k in attrs ==> SafeString(k) && SafeString(attrs[k]) }

  ghost predicate AllPrintable(gs: seq<GraphVal>)
    decreases gs
  {
    forall g :: g in gs ==> Printable(g)
  }

  // ----- numbers and references -----

  lemma IntSafe(n: int)
    ensures DumpSafe(FromInt(n)) <==> SmallInt(n)
  {
    if n < 0 { assert FromInt(n).text[0] == '-'; } else { NumeralValue(n); }
  }

  lemma IntsSafe(ints: seq<int>)
    ensures DumpSafe(IntsJson(ints)) <==> forall i :: 0 <= i < |ints| ==> SmallInt(ints[i])
  {
    var items := IntsJson(ints).items;
    forall i | 0 <= i < |ints|
      ensures items[i] in items && (DumpSafe(items[i]) <==> SmallInt(ints[i]))
    {
      IntSafe(ints[i]);
    }
    assert DumpSafe(List(items)) <==> forall j :: j in items ==> DumpSafe(j);
  }

  lemma RefSafe(r: Ref)
    ensures DumpSafe(RefJson(r)) <==> SmallInt(r.node) && SmallInt(r.entry)
  {
    var items := RefJson(r).items;
    IntSafe(r.node);
    IntSafe(r.entry);
    IntSafe(0);
    assert items[0] in items && items[1] in items;
    assert DumpSafe(List(items)) <==> forall j :: j in items ==> DumpSafe(j);
  }

  lemma RefsSafe(refs: seq<Ref>)
    requires forall i :: 0 <= i < |refs| ==> SmallInt(refs[i].node)
    ensures DumpSafe(RefsJson(refs)) <==> SmallEntries(refs)
  {
    var items := RefsJson(refs).items;
    forall i | 0 <= i < |refs|
      ensures items[i] in items && (DumpSafe(items[i]) <==> SmallInt(refs[i].entry))
    {
      RefSafe(refs[i]);
    }
    assert DumpSafe(List(items)) <==> forall j :: j in items ==> DumpSafe(j);
  }

  lemma RenamedSafe(refs: seq<Ref>, p: seq<int>)
    requires InRange(refs, |p|) && IsPerm(p, |p|) && |p| <= INT_MAX + 1
    ensures DumpSafe(RefsJson(Renamed(refs, p))) <==> SmallEntries(refs)
  {
    var out := Renamed(refs, p);
    RefsSafe(out);
    assert SmallEntries(refs) <==> SmallEntries(out) by {
      assert forall i :: 0 <= i < |refs| ==> out[i].entry == refs[i].entry;
    }
  }

  // ----- maps without errors -----

  lemma MapSafe(m: map<string, JsonVal>)
    requires forall k :: k in m ==> !m[k].Err?
    ensures DumpSafe(Map(m)) <==> forall k :: k in m ==> SafeString(k) && DumpSafe(m[k])
  {
  }

  lemma AttrsSafe(attrs: map<string, string>)
    ensures DumpSafe(AttrsJson(attrs)) <==> SafeStrings(attrs)
  {
    var m := AttrsJson(attrs).members;
    MapSafe(m);
    forall k | k in attrs
      ensures k in m && (DumpSafe(m[k]) <==> SafeString(attrs[k]))
    {
      assert m[k] == Str(attrs[k]);
    }
  }

  lemma FieldNamesSafe()
    ensures forall k :: k in RESERVED + {"op", "name", "inputs", "attrs", "subgraphs"} ==> SafeString(k)
  {
  }

  /** A node's fields are safe one by one. */
  lemma NodeFields(m: map<string, JsonVal>, nested: bool)
    requires m.Keys == {"op", "name", "inputs", "attrs"} + (if nested then {"subgraphs"} else {})
    requires m["op"].Str? && m["name"].Str? && m["inputs"].List? && m["attrs"].Map? && (nested ==> m["subgraphs"].List?)
    ensures DumpSafe(Map(m)) <==>
      && DumpSafe(m["op"]) && DumpSafe(m["name"]) && DumpSafe(m["inputs"]) && DumpSafe(m["attrs"])
      && (nested ==> DumpSafe(m["subgraphs"]))
  {
    MapSafe(m);
    FieldNamesSafe();
  }

  /** A graph's fields are safe one by one; its attributes may hold one error. */
  lemma GraphFields(m: map<string, JsonVal>, attrs: map<string, JsonVal>)
    requires m.Keys == attrs.Keys + RESERVED
    requires forall k :: k in attrs && k !in RESERVED ==> m[k] == attrs[k]
    requires forall k :: k in RESERVED ==> m[k].List?
    ensures DumpSafe(Map(m)) <==> (forall k :: k in RESERVED ==> DumpSafe(m[k])) && PrintableAttrs(attrs)
  {
    FieldNamesSafe();
    assert DumpSafe(Map(m)) <==>
      forall k :: k in m ==> SafeString(k) && (DumpSafe(m[k]) || (m[k].Err? && IsGreatest(m.Keys, k)));
  }

  // ----- nodes and graphs -----

  lemma {:induction false} NodeSafe(n: NodeVal, j: JsonVal, p: seq<int>)
    requires InRange(n.inputs, |p|) && (forall g :: g in n.subgraphs ==> Linked(g))
    requires IsPerm(p, |p|) && |p| <= INT_MAX + 1 && NodeJson(n, j, p)
    ensures DumpSafe(j) <==> PrintableNode(n)
    decreases n
  {
    var m, nested := j.members, n.subgraphs != [];
    RenamedSafe(n.inputs, p);
    AttrsSafe(n.attrs);
    if nested { SubgraphsSafe(n.subgraphs, m["subgraphs"]); }
    NodeFields(m, nested);
    assert j == Map(m);
  }

  lemma {:induction false} SubgraphsSafe(gs: seq<GraphVal>, j: JsonVal)
    requires (forall g :: g in gs ==> Linked(g)) && SubgraphsJson(gs, j)
    ensures DumpSafe(j) <==> AllPrintable(gs)
    decreases gs
  {
    forall s | 0 <= s < |gs|
      ensures gs[s] in gs && j.items[s] in j.items && (DumpSafe(j.items[s]) <==> Printable(gs[s]))
    {
      JsonSafe(gs[s], j.items[s]);
    }
  }

  lemma {:induction false} NodesSafe(v: GraphVal, items: seq<JsonVal>, p: seq<int>)
    requires Linked(v) && IsPerm(p, |v.nodes|) && |v.nodes| <= INT_MAX + 1 && |items| == |v.nodes|
    requires forall i :: 0 <= i < |v.nodes| ==> NodeJson(v.nodes[i], items[p[i]], p)
    ensures DumpSafe(List(items)) <==> forall n :: n in v.nodes ==> PrintableNode(n)
    decreases v, 0
  {
    forall i | 0 <= i < |v.nodes|
      ensures v.nodes[i] in v.nodes && items[p[i]] in items && (DumpSafe(items[p[i]]) <==> PrintableNode(v.nodes[i]))
    {
      assert v.nodes[i] in v.nodes;
      NodeSafe(v.nodes[i], items[p[i]], p);
    }
    if forall n :: n in v.nodes ==> PrintableNode(n) {
      forall k | 0 <= k < |items|
        ensures DumpSafe(items[k])
      {
        var i := PermOnto(p, |v.nodes|, k);
      }
    }
  }

  /** The JSON form of a graph survives printing exactly when the graph is printable. */
  lemma {:induction false} JsonSafe(v: GraphVal, j: JsonVal)
    requires Linked(v) && IsJson(v, j)
    ensures DumpSafe(j) <==> Printable(v)
    decreases v, 1
  {
    var p :| GraphJson(v, j, p);
    var m := j.members;
    var numbers := seq(|v.nodes|, i => i);
    IntsSafe(numbers);
    GraphFields(m, v.attrs);
    if |v.nodes| > INT_MAX + 1 {
      assert !SmallInt(numbers[INT_MAX + 1]);
      assert "node_row_ptr" in RESERVED;
    } else {
      IntsSafe(RenamedInts(v.inputs, p));
      RenamedSafe(v.heads, p);
      NodesSafe(v, m["nodes"].items, p);
    }
  }
}
