/** Finite directed graphs given by adjacency lists: closed walks and rankings. */
module Digraph {
  type Adjacency = seq<seq<nat>>

  predicate Edge(g: Adjacency, a: nat, b: nat)
  {
    a < |g| && b < |g| && b in g[a]
  }

  ghost predicate Walk(g: Adjacency, w: seq<nat>)
  {
    w != [] && forall i :: 0 <= i < |w| - 1 ==> Edge(g, w[i], w[i + 1])
  }

  ghost predicate ClosedWalk(g: Adjacency, w: seq<nat>)
  {
    Walk(g, w) && |w| >= 2 && w[0] == w[|w| - 1]
  }

  ghost predicate Acyclic(g: Adjacency)
  {
    forall w :: !ClosedWalk(g, w)
  }

  function Below(n: nat): (s: set<nat>)
    ensures forall a: nat :: a in s <==> a < n
    ensures |s| == n
  {
    if n == 0 then {} else {n - 1} + Below(n - 1)
  }

  /** A ranking strictly decreases along every edge. */
  ghost predicate Ranked(g: Adjacency, rank: map<nat, nat>)
  {
    && rank.Keys == Below(|g|)
    && forall a, b :: Edge(g, a, b) ==> rank[b] < rank[a]
  }

  lemma {:induction false} RankFalls(g: Adjacency, rank: map<nat, nat>, w: seq<nat>)
    requires Ranked(g, rank) && Walk(g, w) && |w| >= 2
    ensures w[0] in rank && w[|w| - 1] in rank && rank[w[|w| - 1]] < rank[w[0]]
    decreases |w|
  {
    assert Edge(g, w[0], w[1]);
    if |w| > 2 {
      assert forall i :: 0 <= i < |w[1..]| - 1 ==> Edge(g, w[1..][i], w[1..][i + 1]) by {
        forall i | 0 <= i < |w[1..]| - 1
          ensures Edge(g, w[1..][i], w[1..][i + 1])
        {
          assert Edge(g, w[i + 1], w[i + 1 + 1]);
        }
      }
      RankFalls(g, rank, w[1..]);
    }
  }

  /** No closed walk exists exactly when the nodes can be ranked. */
  lemma AcyclicIffRanked(g: Adjacency)
    ensures Acyclic(g) <==> exists rank :: Ranked(g, rank)
  {
    if rank :| Ranked(g, rank) {
      forall w
        ensures !ClosedWalk(g, w)
      {
        if ClosedWalk(g, w) { RankFalls(g, rank, w); }
      }
    }
    if Acyclic(g) {
      var rank := RankWithin(g, Below(|g|));
      assert Ranked(g, rank);
    }
  }

  lemma {:induction false} RankWithin(g: Adjacency, s: set<nat>) returns (rank: map<nat, nat>)
    requires Acyclic(g) && forall a :: a in s ==> a < |g|
    ensures rank.Keys == s
    ensures forall a, b :: a in s && b in s && Edge(g, a, b) ==> rank[b] < rank[a]
    decreases |s|
  {
    if s == {} { return map[]; }
    var x := Sink(g, s);
    var rest := RankWithin(g, s - {x});
    rank := (map a | a in rest :: rest[a] + 1)[x := 0];
  }

  ghost predicate IsSink(g: Adjacency, s: set<nat>, x: nat)
  {
    x in s && forall b :: b in s ==> !Edge(g, x, b)
  }

  lemma Sink(g: Adjacency, s: set<nat>) returns (x: nat)
    requires Acyclic(g) && s != {} && forall a :: a in s ==> a < |g|
    ensures IsSink(g, s, x)
  {
    if y :| IsSink(g, s, y) { return y; }
    var w := LongWalk(g, s, |s| + 1);
    var i, j := Repeat(s, w);
    CutWalk(g, w, i, j);
    assert false;
  }

  /** Between two visits of the same node a walk is closed. */
  lemma CutWalk(g: Adjacency, w: seq<nat>, i: nat, j: nat)
    requires Walk(g, w) && i < j < |w| && w[i] == w[j]
    ensures ClosedWalk(g, w[i..j + 1])
  {
    var c := w[i..j + 1];
    forall k | 0 <= k < |c| - 1
      ensures Edge(g, c[k], c[k + 1])
    {
      assert c[k] == w[i + k] && c[k + 1] == w[i + k + 1];
    }
  }

  /** Without a sink, walks of any length stay inside `s`. */
  lemma {:induction false} LongWalk(g: Adjacency, s: set<nat>, n: nat) returns (w: seq<nat>)
    requires s != {} && n > 0 && !exists x :: IsSink(g, s, x)
    ensures |w| == n && Walk(g, w) && forall i :: 0 <= i < n ==> w[i] in s
    decreases n
  {
    if n == 1 {
      var x :| x in s;
      return [x];
    }
    var v := LongWalk(g, s, n - 1);
    var x := v[n - 2];
    assert !IsSink(g, s, x);
    var b :| b in s && Edge(g, x, b);
    w := v + [b];
    forall i | 0 <= i < |w| - 1
      ensures Edge(g, w[i], w[i + 1])
    {
      if i < n - 2 { assert Edge(g, v[i], v[i + 1]); }
    }
  }

  lemma {:induction false} Repeat(s: set<nat>, w: seq<nat>) returns (i: nat, j: nat)
    requires |w| > |s| && forall k :: 0 <= k < |w| ==> w[k] in s
    ensures i < j < |w| && w[i] == w[j]
    decreases |s|
  {
    var x := w[0];
    if x in w[1..] {
      var k :| 0 <= k < |w[1..]| && w[1..][k] == x;
      return 0, k + 1;
    }
    assert forall k :: 0 <= k < |w[1..]| ==> w[1..][k] in s - {x};
    i, j := Repeat(s - {x}, w[1..]);
    i, j := i + 1, j + 1;
  }
}
