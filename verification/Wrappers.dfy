/** Optional values and positions in sequences, shared by all parts. */
module Wrappers {
  datatype Option<+T> = None | Some(value: T)

  predicate NoneTwice<T(==)>(s: seq<T>)
  {
    forall j, k :: 0 <= j < k < |s| ==> s[j] != s[k]
  }

  ghost function IndexOf<T>(s: seq<T>, x: T): (i: nat)
    requires x in s
    ensures i < |s| && s[i] == x
  {
    var i :| 0 <= i < |s| && s[i] == x;
    i
  }
}
