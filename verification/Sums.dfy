/** Adding up a weight over a sequence. */
module Sums {
  function Total<T>(s: seq<T>, weight: T -> nat): nat
  {
    if s == [] then 0 else weight(s[0]) + Total(s[1..], weight)
  }

  lemma {:induction false} TotalUpdate<T>(s: seq<T>, weight: T -> nat, i: nat, x: T)
    requires i < |s|
    ensures Total(s[i := x], weight) + weight(s[i]) == Total(s, weight) + weight(x)
    decreases i
  {
    if i == 0 {
      assert s[i := x][1..] == s[1..];
    } else {
      assert s[i := x][1..] == s[1..][i - 1 := x];
      TotalUpdate(s[1..], weight, i - 1, x);
    }
  }

  lemma {:induction false} TotalWithin<T>(s: seq<T>, weight: T -> nat, top: nat)
    requires forall i :: 0 <= i < |s| ==> weight(s[i]) <= top
    ensures Total(s, weight) <= top * |s|
    decreases |s|
  {
    if s != [] {
      TotalWithin(s[1..], weight, top);
      assert top * |s| == top * (|s| - 1) + top;
    }
  }
}
