/** What printed values look like and where the parts of a text end, character by character
    (src/lib_api.cc). */
module JsonText {
  import opened Json
  import opened KeyOrder
  import opened Wrappers

  // ----- lists and maps grow at the end -----

  lemma Leaves(s: string, n: int, digits: string)
    ensures Dump(Err) == "json(Error)" && Dump(Str(s)) == "\"" + s + "\"" && Dump(Num(n, digits)) == digits
    ensures Dump(List([])) == "[]" && Dump(Map(map[])) == "{}"
  {
    SortedKeysEmpty({});
    var none: map<string, JsonVal> := map[];
    assert none.Keys == {};
  }

  lemma {:induction false} DumpItemsSnoc(items: seq<JsonVal>, x: JsonVal)
    ensures DumpItems(items + [x]) == DumpItems(items) + (if items == [] then "" else ",") + Dump(x)
    decreases |items|
  {
    var more := items + [x];
    if items == [] {
      assert more == [x];
    } else {
      var rest := items[1..];
      DumpItemsSnoc(rest, x);
      assert more[1..] == rest + [x];
      Regrouped(Dump(items[0]), DumpItems(rest), if rest == [] then "" else ",", Dump(x));
    }
  }

  lemma Regrouped(a: string, b: string, comma: string, c: string)
    ensures a + "," + (b + comma + c) == (a + "," + b) + comma + c
    ensures a + "," + ("" + "" + c) == a + "," + c
  {
  }

  /** One more item goes before the closing bracket, behind a comma if it is not the first. */
  lemma ItemAppends(items: seq<JsonVal>, x: JsonVal)
    ensures var t := Dump(List(items));
      t != "" && Dump(List(items + [x])) == t[..|t| - 1] + (if items == [] then "" else ",") + Dump(x) + "]"
  {
    DumpItemsSnoc(items, x);
    Brackets(items);
    Brackets(items + [x]);
    Closing("[", DumpItems(items), if items == [] then "" else ",", Dump(x), "]");
  }

  lemma Brackets(items: seq<JsonVal>)
    ensures Dump(List(items)) == "[" + DumpItems(items) + "]"
  {
  }

  lemma Closing(open: string, all: string, comma: string, more: string, close: string)
    requires |close| == 1
    ensures var t := open + all + close; t[..|t| - 1] + comma + more + close == open + (all + comma + more) + close
  {
    var t := open + all + close;
    assert t[..|t| - 1] == open + all;
  }

  lemma LeastStays(s: set<string>, k: string, least: string)
    requires IsLeast(s, least) && Before(least, k)
    ensures IsLeast(s + {k}, least)
  {
  }

  lemma OneKey(k: string)
    ensures SortedKeys({k}) == [k]
  {
    LeastUnique({k}, k);
    assert {k} - {k} == {};
    SortedKeysEmpty({});
  }

  lemma SnocStep(s: set<string>, k: string, least: string, tail: seq<string>)
    requires k !in s && IsLeast(s, least) && Before(least, k)
    requires SortedKeys(s - {least}) == tail && SortedKeys((s - {least}) + {k}) == tail + [k]
    ensures SortedKeys(s + {k}) == SortedKeys(s) + [k]
  {
    LeastStays(s, k, least);
    LeastUnique(s + {k}, least);
    LeastUnique(s, least);
    assert (s + {k}) - {least} == (s - {least}) + {k};
    Chained([least], tail, [k]);
  }

  lemma {:induction false} SortedKeysSnoc(s: set<string>, k: string)
    requires k !in s && forall j :: j in s ==> Before(j, k)
    ensures SortedKeys(s + {k}) == SortedKeys(s) + [k]
    decreases |s|
  {
    if s == {} {
      assert s + {k} == {k};
      OneKey(k);
      SortedKeysEmpty(s);
    } else {
      var least := Least(s);
      SortedKeysSnoc(s - {least}, k);
      SnocStep(s, k, least, SortedKeys(s - {least}));
    }
  }

  lemma Chained(a: seq<string>, b: seq<string>, c: seq<string>)
    ensures a + (b + c) == (a + b) + c
  {
  }

  lemma {:induction false} DumpMembersSnoc(v: JsonVal, w: JsonVal, keys: seq<string>, k: string)
    requires v.Map? && w.Map? && k in w.members
    requires forall j :: j in keys ==> j in v.members && j in w.members && v.members[j] == w.members[j]
    ensures DumpMembers(w, keys + [k]) ==
      DumpMembers(v, keys) + (if keys == [] then "" else ",") + DumpMember(w, k)
    decreases |keys|
  {
    var more := keys + [k];
    if keys == [] {
      assert more == [k];
    } else {
      DumpMembersSnoc(v, w, keys[1..], k);
      assert more[1..] == keys[1..] + [k];
      assert keys[0] in keys;
      if |keys| == 1 { assert keys[1..] == []; }
    }
  }

  lemma MembersSnoc(m: map<string, JsonVal>, k: string, x: JsonVal)
    requires k !in m && forall j :: j in m ==> Before(j, k)
    ensures var v, w := Map(m), Map(m[k := x]);
      DumpMembers(w, SortedKeys(w.members.Keys)) ==
        DumpMembers(v, SortedKeys(m.Keys)) + (if m.Keys == {} then "" else ",") + DumpMember(w, k)
  {
    var v, w := Map(m), Map(m[k := x]);
    assert w.members.Keys == m.Keys + {k};
    SortedKeysSnoc(m.Keys, k);
    SortedKeysEmpty(m.Keys);
    DumpMembersSnoc(v, w, SortedKeys(m.Keys), k);
  }

  /** A member with a greater key than all others goes before the closing brace, behind a comma
      if it is not the only one. */
  lemma MemberAppends(m: map<string, JsonVal>, k: string, x: JsonVal)
    requires k !in m && forall j :: j in m ==> Before(j, k)
    ensures var t := Dump(Map(m));
      t != "" && Dump(Map(m[k := x])) ==
        t[..|t| - 1] + (if m.Keys == {} then "" else ",") + ("\"" + k + "\" : " + Dump(x)) + "}"
  {
    var v, w, comma := Map(m), Map(m[k := x]), if m.Keys == {} then "" else ",";
    MembersSnoc(m, k, x);
    MemberText(w, k);
    Braces(m);
    Braces(m[k := x]);
    Closing("{", DumpMembers(v, SortedKeys(m.Keys)), comma, "\"" + k + "\" : " + Dump(x), "}");
  }

  lemma MemberText(v: JsonVal, k: string)
    requires v.Map? && k in v.members
    ensures DumpMember(v, k) == "\"" + k + "\" : " + Dump(v.members[k])
  {
    var t := Dump(v.members[k]);
    assert [QUOTE] + k + [QUOTE] + " : " + t == "\"" + k + "\" : " + t;
  }

  lemma Braces(m: map<string, JsonVal>)
    ensures Dump(Map(m)) == "{" + DumpMembers(Map(m), SortedKeys(m.Keys)) + "}"
  {
  }

  /** So two members are printed in the order of their keys. */
  lemma TwoMembers(j: string, x: JsonVal, k: string, y: JsonVal)
    requires Before(j, k)
    ensures Dump(Map(map[j := x, k := y])) ==
      "{" + ("\"" + j + "\" : " + Dump(x)) + "," + ("\"" + k + "\" : " + Dump(y)) + "}"
  {
    var none: map<string, JsonVal> := map[];
    BeforeTrichotomy(j, k);
    Leaves("", 0, "");
    MemberAppends(none, j, x);
    MemberAppends(none[j := x], k, y);
    assert none[j := x][k := y] == map[j := x, k := y];
    Reopened("\"" + j + "\" : " + Dump(x), "\"" + k + "\" : " + Dump(y));
  }

  lemma Reopened(a: string, b: string)
    ensures "{}"[..1] + "" + a + "}" == "{" + a + "}"
    ensures var t := "{" + a + "}"; t[..|t| - 1] + "," + b + "}" == "{" + a + "," + b + "}"
  {
    var t := "{" + a + "}";
    assert t[..|t| - 1] == "{" + a;
  }

  // ----- numerals -----

  function Pow10(i: nat): (p: nat)
    ensures p >= 1
  {
    if i == 0 then 1 else 10 * Pow10(i - 1)
  }

  lemma DivTwice(n: nat, p: nat)
    requires p >= 1
    ensures n / (10 * p) == n / 10 / p
  {
    var q, r := n / 10 / p, n / 10 % p;
    assert n / 10 == p * q + r;
    assert n == (10 * p) * q + (10 * r + n % 10);
    QuotientIs(n, 10 * p, q, 10 * r + n % 10);
  }

  lemma QuotientIs(n: int, d: int, q: int, r: int)
    requires d >= 1 && 0 <= r < d && n == d * q + r
    ensures n / d == q
  {
    var e := n / d - q;
    assert d * e == r - n % d;
    assert e >= 1 ==> d * e >= d;
    assert e <= -1 ==> d * e <= -d;
  }

  /** Digit `i` from the right is the decimal digit of the number, and there are no more digits
      than needed. */
  lemma {:induction false} NumeralDigits(n: nat, i: nat)
    ensures var t := Numeral(n);
      && (i < |t| ==> t[|t| - 1 - i] as int - '0' as int == n / Pow10(i) % 10)
      && |t| >= 1 && n < Pow10(|t|) && (|t| > 1 ==> Pow10(|t| - 1) <= n)
    decreases n
  {
    if n >= 10 {
      NumeralDigits(n / 10, if i > 0 then i - 1 else 0);
      if i > 0 { DivTwice(n, Pow10(i - 1)); }
    }
  }

  /** A negative number is printed with a sign. */
  lemma IntText(n: int)
    ensures FromInt(n).Num? && FromInt(n).n == n
    ensures Dump(FromInt(n)) == if n < 0 then "-" + Dump(FromInt(-n)) else Numeral(n)
  {
  }

  /** Together with the numerals this says what every string of digits is worth. */
  lemma {:induction false} LeadingZero(t: string)
    requires AllDigits(t)
    ensures AllDigits("0" + t) && Value("0" + t) == Value(t)
    decreases |t|
  {
    var z := "0" + t;
    if t == "" {
      assert z[..0] == "";
    } else {
      LeadingZero(t[..|t| - 1]);
      assert z[..|z| - 1] == "0" + t[..|t| - 1];
    }
  }

  // ----- where strings and numbers end -----

  /** Whatever opens or closes nothing is passed over. */
  lemma PassesOver(json: string, i: nat)
    requires i < |json| && !('0' <= json[i] <= '9') && json[i] != '"'
    requires json[i] != '[' && json[i] != ']' && json[i] != '{' && json[i] != '}'
    ensures Parse(json, i) == Parse(json, i + 1)
  {
  }

  /** The quote at `e` closes a string opened at `i`: there is no backslash right before it. */
  predicate Closes(json: string, i: nat, e: int)
  {
    i < e < |json| && json[e] == '"' && (e == i + 1 || json[e - 1] != '\\')
  }

  lemma {:induction false} ScanString(json: string, i: nat, k: nat, e: nat)
    requires i < k <= e < |json| && Closes(json, i, e) && forall d :: k <= d < e ==> !Closes(json, i, d)
    ensures ParseString(json, k, json[i + 1..k]) == Done(Str(json[i + 1..e]), e + 1)
    decreases e - k
  {
    if k < e {
      ScanString(json, i, k + 1, e);
      assert json[i + 1..k + 1] == json[i + 1..k] + [json[k]];
      assert !Closes(json, i, k);
    }
  }

  lemma {:induction false} ScanOpen(json: string, i: nat, k: nat)
    requires i < k <= |json| && forall d :: k <= d < |json| ==> !Closes(json, i, d)
    ensures ParseString(json, k, json[i + 1..k]) == Done(Err, |json|)
    decreases |json| - k
  {
    if k < |json| {
      ScanOpen(json, i, k + 1);
      assert json[i + 1..k + 1] == json[i + 1..k] + [json[k]];
      assert !Closes(json, i, k);
    }
  }

  /** A string is what stands up to the first quote that closes it. */
  lemma StringEnds(json: string, i: nat, e: nat)
    requires i < |json| && json[i] == '"' && Closes(json, i, e) && forall d :: i < d < e ==> !Closes(json, i, d)
    ensures Parse(json, i) == Done(Str(json[i + 1..e]), e + 1)
  {
    assert json[i + 1..i + 1] == "";
    ScanString(json, i, i + 1, e);
  }

  /** Without such a quote nothing is read. */
  lemma StringOpen(json: string, i: nat)
    requires i < |json| && json[i] == '"' && forall d :: i < d < |json| ==> !Closes(json, i, d)
    ensures Parse(json, i) == Done(Err, |json| + 1)
  {
    assert json[i + 1..i + 1] == "";
    ScanOpen(json, i, i + 1);
  }

  lemma {:induction false} ScanNum(json: string, i: nat, k: nat, e: nat)
    requires i <= k <= e <= |json| && AllDigits(json[i..e]) && (e < |json| ==> !('0' <= json[e] <= '9'))
    ensures AllDigits(json[i..k])
    ensures ParseNum(json, k, json[i..k]) == if Value(json[i..e]) > 0x7fff_ffff then Throw
      else Done(Num(Value(json[i..e]), json[i..e]), e)
    decreases e - k
  {
    assert forall d :: i <= d < e ==> json[i..e][d - i] == json[d];
    if k < e {
      ScanNum(json, i, k + 1, e);
      assert json[i..k + 1] == json[i..k] + [json[k]];
    }
  }

  /** A number is what stands up to the first character that is no digit. */
  lemma NumEnds(json: string, i: nat, e: nat)
    requires i < e <= |json| && AllDigits(json[i..e]) && (e < |json| ==> !('0' <= json[e] <= '9'))
    ensures Parse(json, i) == if Value(json[i..e]) > 0x7fff_ffff then Throw
      else Done(Num(Value(json[i..e]), json[i..e]), e)
  {
    assert json[i..e][0] == json[i] && json[i..i] == "";
    ScanNum(json, i, i, e);
  }

  /** A list ends behind its closing bracket, and one without it is an error at the end. */
  lemma {:induction false} ListCloses(json: string, idx: nat, items: Option<seq<JsonVal>>)
    requires ParseList(json, idx, items).Done?
    ensures var r := ParseList(json, idx, items);
      if r.value.Err? then r.next == |json| else r.value.List? && 0 < r.next <= |json| && json[r.next - 1] == ']'
    decreases Left(json, idx)
  {
    if idx < |json| && json[idx] != ']' {
      var item := Parse(json, idx);
      ListCloses(json, item.next, Push(items, Content(item)));
    }
  }

  lemma {:induction false} MapCloses(json: string, idx: nat, e: Entries)
    requires ParseMap(json, idx, e).Done?
    ensures var r := ParseMap(json, idx, e);
      if r.value.Err? then r.next == |json| else r.value.Map? && 0 < r.next <= |json| && json[r.next - 1] == '}'
    decreases Left(json, idx)
  {
    if idx < |json| && json[idx] != '}' {
      var item := Parse(json, idx);
      MapCloses(json, item.next, Store(e, Content(item)));
    }
  }
}
