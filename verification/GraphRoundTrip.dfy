/** `Graph::toString` and `Graph::fromString` together. */
module GraphRoundTrip {
  import opened Json
  import opened JsonCursor
  import opened JsonRoundTrip
  import opened GraphValue
  import opened GraphMatch
  import opened GraphText
  import opened ExtGraph
  import opened GraphWriter
  import opened GraphReader

  /** For a graph with mirrored edge lists, whatever numbering `toJson` chose: the text parses
      back to the same JSON exactly when the graph is printable, `fromJson` accepts that JSON
      exactly when no graph in it has a cycle, and everything it can then build is the original
      graph renumbered, with the same inputs and attributes exactly when the graph is
      conventional. */
  lemma TextRoundTrip(v: GraphVal, j: JsonVal)
    requires Linked(v) && Mirrored(v) && IsJson(v, j)
    ensures Parse(Dump(j), 0) == Done(j, |Dump(j)|) <==> Printable(v)
    ensures Resolvable(j) <==> AcyclicDeep(v)
    ensures forall w :: Resolvable(j) && Built(j, w) ==> Iso(v, w) && (Same(v, w) <==> Conventional(v))
  {
    JsonSafe(v, j);
    RoundTrip(j);
    Resolves(v, j);
    forall w | Resolvable(j) && Built(j, w)
      ensures Iso(v, w) && (Same(v, w) <==> Conventional(v))
    {
      BuiltIso(v, j, w);
      SameIffConventional(v, w);
    }
  }

  method ToString(g: Graph, ghost v: GraphVal, ghost fp: set<object>) returns (text: string, ghost j: JsonVal)
    requires GraphIs(g, v, fp) && Linked(v)
    ensures IsJson(v, j) && text == Dump(j)
  {
    var val := ToJson(g, v, fp);
    text := DumpText(val);
    j := val;
  }

  /** `null` when parsing does not end normally or the references do not resolve. */
  method FromString(text: string) returns (g: Graph?, ghost w: GraphVal, ghost fp: set<object>)
    ensures fresh(fp)
    ensures g != null <==> Parse(text, 0).Done? && Resolvable(Parse(text, 0).value)
    ensures g != null ==> GraphIs(g, w, fp) && Built(Parse(text, 0).value, w)
  {
    var o := ParseText(text);
    if !o.Done? {
      return null, Partial([]), {};
    }
    g, w, fp := FromJson(o.value);
  }

  /** Writing a graph out and reading it in again succeeds exactly on acyclic graphs, and
      then yields fresh objects with the same content up to numbering; inputs and attributes
      survive too exactly on conventional graphs. */
  method WriteAndRead(g: Graph, ghost v: GraphVal, ghost fp: set<object>)
    returns (h: Graph?, ghost w: GraphVal, ghost hfp: set<object>)
    requires GraphIs(g, v, fp) && Linked(v) && Mirrored(v) && Printable(v)
    ensures fresh(hfp)
    ensures h != null <==> AcyclicDeep(v)
    ensures h != null ==> GraphIs(h, w, hfp) && Iso(v, w)
    ensures h != null ==> (Same(v, w) <==> Conventional(v))
  {
    var text; ghost var j;
    text, j := ToString(g, v, fp);
    TextRoundTrip(v, j);
    h, w, hfp := FromString(text);
  }
}
