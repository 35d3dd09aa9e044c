/** Permutations of 0, 1, ..., n - 1 given by their values. */
module Permutations {
  import Digraph

  predicate IsPerm(perm: seq<int>, n: nat)
  {
    && |perm| == n
    && (forall i :: 0 <= i < n ==> 0 <= perm[i] < n)
    && forall i, j :: 0 <= i < j < n ==> perm[i] != perm[j]
  }

  /** A permutation takes every value. */
  lemma PermOnto(perm: seq<int>, n: nat, k: nat) returns (i: nat)
    requires IsPerm(perm, n) && k < n
    ensures i < n && perm[i] == k
  {
    if k !in perm {
      var s := Digraph.Below(n) - {k};
      var q: seq<nat> := seq(n, i requires 0 <= i < n => perm[i]);
      forall i | 0 <= i < n
        ensures q[i] in s
      {
        assert perm[i] in perm;
      }
      var a, b := Digraph.Repeat(s, q);
      assert false;
    }
    i :| 0 <= i < n && perm[i] == k;
  }

  // ----- increasing sequences -----

  predicate Increasing(s: seq<int>) { forall i, j :: 0 <= i < j < |s| ==> s[i] < s[j] }

  /** They are determined by their members. */
  lemma {:induction false} IncreasingUnique(s: seq<int>, t: seq<int>)
    requires Increasing(s) && Increasing(t) && forall a :: a in s <==> a in t
    ensures s == t
    decreases |s|
  {
    assert t != [] ==> t[0] in t;
    if s != [] {
      assert s[0] in s && s[0] in t && t[0] in s;
      forall a
        ensures a in s[1..] <==> a in t[1..]
      {
        TailMember(s, a);
        TailMember(t, a);
      }
      IncreasingUnique(s[1..], t[1..]);
      assert s == [s[0]] + s[1..] && t == [t[0]] + t[1..];
    }
  }

  lemma TailMember(s: seq<int>, a: int)
    requires Increasing(s) && s != []
    ensures a in s[1..] <==> a in s && a != s[0]
  {
    assert s == [s[0]] + s[1..];
  }
}
