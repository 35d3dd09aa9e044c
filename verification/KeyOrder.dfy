/** The order in which `std::map` keeps string keys. */
module KeyOrder {
  /** `std::string::operator<`. */
  predicate Before(a: string, b: string)
  {
    if b == "" then false
    else if a == "" then true
    else a[0] < b[0] || (a[0] == b[0] && Before(a[1..], b[1..]))
  }

  /** Up to some position the keys agree; there the first one ends or has the smaller character. */
  predicate Splits(a: string, b: string, k: int)
  {
    0 <= k <= |a| && k < |b| && a[..k] == b[..k] && (k == |a| || a[k] < b[k])
  }

  /** The order is lexicographic. */
  lemma {:induction false} BeforeMeans(a: string, b: string)
    ensures Before(a, b) <==> exists k :: Splits(a, b, k)
    decreases |a|
  {
    if a == "" {
      assert Splits(a, b, 0) <==> b != "";
    } else if b != "" {
      BeforeMeans(a[1..], b[1..]);
      if a[0] < b[0] {
        assert Splits(a, b, 0);
      } else if a[0] == b[0] {
        SplitsTail(a, b);
      } else {
        assert forall k :: 0 < k <= |a| && k <= |b| ==> a[..k][0] != b[..k][0];
      }
    }
  }

  lemma SplitsTail(a: string, b: string)
    requires a != "" && b != "" && a[0] == b[0]
    ensures (exists k :: Splits(a[1..], b[1..], k)) <==> exists k :: Splits(a, b, k)
  {
    var c, d := a[1..], b[1..];
    if k :| Splits(c, d, k) {
      assert a[..k + 1] == [a[0]] + c[..k] && b[..k + 1] == [b[0]] + d[..k];
      assert Splits(a, b, k + 1);
    }
    if k :| Splits(a, b, k) {
      assert c[..k - 1] == a[..k][1..] && d[..k - 1] == b[..k][1..];
      assert Splits(c, d, k - 1);
    }
  }

  lemma {:induction false} BeforeTrichotomy(a: string, b: string)
    ensures !Before(a, a)
    ensures !(Before(a, b) && Before(b, a))
    ensures a == b || Before(a, b) || Before(b, a)
  {
    if a != "" { BeforeTrichotomy(a[1..], a[1..]); }
    if a != "" && b != "" {
      BeforeTrichotomy(a[1..], b[1..]);
      if a[0] == b[0] && a[1..] == b[1..] { assert a == [a[0]] + a[1..] == b; }
    }
  }

  lemma {:induction false} BeforeTransitive(a: string, b: string, c: string)
    requires Before(a, b) && Before(b, c)
    ensures Before(a, c)
  {
    if a != "" && a[0] == b[0] && b[0] == c[0] {
      BeforeTransitive(a[1..], b[1..], c[1..]);
    }
  }

  predicate IsLeast(s: set<string>, k: string)
  {
    k in s && forall j :: j in s && j != k ==> Before(k, j)
  }

  lemma {:induction false} LeastExists(s: set<string>)
    requires s != {}
    ensures exists k :: IsLeast(s, k)
    decreases |s|
  {
    var x :| x in s;
    var rest := s - {x};
    if rest == {} {
      assert s == {x};
      assert IsLeast(s, x);
    } else {
      LeastExists(rest);
      var y :| IsLeast(rest, y);
      BeforeTrichotomy(x, y);
      var k := if Before(x, y) then x else y;
      forall j | j in s && j != k
        ensures Before(k, j)
      {
        if k == x && j != y { BeforeTransitive(x, y, j); }
      }
      assert IsLeast(s, k);
    }
  }

  lemma LeastUnique(s: set<string>, k: string)
    requires IsLeast(s, k)
    ensures SortedKeys(s) == [k] + SortedKeys(s - {k})
  {
    LeastExists(s);
    var j := Least(s);
    if j != k { BeforeTrichotomy(j, k); }
  }

  ghost function Least(s: set<string>): (k: string)
    requires s != {}
    ensures IsLeast(s, k)
  {
    LeastExists(s);
    var k :| IsLeast(s, k);
    k
  }

  /** The keys in iteration order: ascending, each exactly once. */
  ghost function SortedKeys(s: set<string>): (keys: seq<string>)
    ensures forall k :: k in keys <==> k in s
    ensures forall i, j :: 0 <= i < j < |keys| ==> Before(keys[i], keys[j])
    decreases |s|
  {
    if s == {} then [] else
      var k := Least(s);
      [k] + SortedKeys(s - {k})
  }

  lemma SortedKeysEmpty(s: set<string>)
    ensures SortedKeys(s) == [] <==> s == {}
  {
  }
}
