/** When reading back a printed value returns that value (src/lib_api.cc). */
module JsonRoundTrip {
  import opened Json
  import opened JsonReading
  import opened KeyOrder
  import opened Wrappers

  // ----- which values survive -----

  predicate IsGreatest(s: set<string>, k: string)
  {
    k in s && forall j :: j in s && j != k ==> Before(j, k)
  }

  /** Strings, keys and numbers are ones that survive unescaped printing, and an error occurs
      only as the value of a map's greatest key, which is printed last. */
  ghost predicate DumpSafe(v: JsonVal)
    decreases v
  {
    match v
    case Err => false
    case Str(s) => SafeString(s)
    case Num(n, text) => SafeNum(n, text)
    case List(items) => forall item :: item in items ==> DumpSafe(item)
    case Map(m) => forall k :: k in m ==> SafeString(k) && (DumpSafe(m[k]) || (m[k].Err? && IsGreatest(m.Keys, k)))
  }

  lemma {:induction false} SafeIsLexical(v: JsonVal)
    requires DumpSafe(v)
    ensures Lexical(v)
    decreases v
  {
    match v
    case List(items) =>
      forall item | item in items
        ensures Lexical(item)
      {
        SafeIsLexical(item);
      }
    case Map(m) =>
      forall k | k in m
        ensures Lexical(m[k])
      {
        if !m[k].Err? { SafeIsLexical(m[k]); }
      }
    case _ =>
  }

  // ----- such values are read as themselves -----

  /** The map reached from `m` by storing `keys` one after the other. */
  ghost function Extend(source: map<string, JsonVal>, keys: seq<string>, m: map<string, JsonVal>): map<string, JsonVal>
    requires forall k :: k in keys ==> k in source
  {
    if keys == [] then m else Extend(source, keys[1..], m[keys[0] := source[keys[0]]])
  }

  lemma {:induction false} ExtendAll(source: map<string, JsonVal>, keys: seq<string>, m: map<string, JsonVal>)
    requires forall k :: k in keys ==> k in source
    requires forall k :: k in m ==> k in source && m[k] == source[k]
    requires forall k :: k in source ==> k in m || k in keys
    ensures Extend(source, keys, m) == source
    decreases keys
  {
    if keys != [] {
      ExtendAll(source, keys[1..], m[keys[0] := source[keys[0]]]);
    }
  }

  lemma {:induction false} SafeReads(v: JsonVal)
    requires DumpSafe(v)
    ensures Read(v) == Some(v)
    decreases v, 2
  {
    match v
    case List(items) => SafeItems(items);
    case Map(m) => SafeMap(v);
    case _ =>
  }

  lemma {:induction false} SafeItems(items: seq<JsonVal>)
    requires forall item :: item in items ==> DumpSafe(item)
    ensures ReadItems(items) == Some(items)
    decreases items
  {
    if items != [] {
      SafeReads(items[0]);
      SafeItems(items[1..]);
      assert items == [items[0]] + items[1..];
    }
  }

  lemma {:induction false} SafeMap(v: JsonVal)
    requires v.Map? && DumpSafe(v)
    ensures Read(v) == Some(v)
    decreases v, 1
  {
    var keys := SortedKeys(v.members.Keys);
    forall k | k in v.members && !v.members[k].Err?
      ensures Read(v.members[k]) == Some(v.members[k])
    {
      SafeReads(v.members[k]);
    }
    forall a | 0 <= a < |keys| && v.members[keys[a]].Err?
      ensures a == |keys| - 1
    {
      GreatestIsLast(v.members.Keys, a);
    }
    InOrder(v, keys, map[]);
    ExtendAll(v.members, keys, map[]);
  }

  lemma GreatestIsLast(s: set<string>, a: nat)
    requires a < |SortedKeys(s)| && IsGreatest(s, SortedKeys(s)[a])
    ensures a == |SortedKeys(s)| - 1
  {
    var keys := SortedKeys(s);
    var z := |keys| - 1;
    if a < z {
      assert keys[z] in s && Before(keys[a], keys[z]);
      BeforeTrichotomy(keys[a], keys[z]);
    }
  }

  /** Keys and values keep their places when errors come last. */
  ghost predicate ErrorsLast(v: JsonVal, keys: seq<string>)
    requires v.Map? && forall k :: k in keys ==> k in v.members
  {
    forall a :: 0 <= a < |keys| && v.members[keys[a]].Err? ==> a == |keys| - 1
  }

  lemma ErrorsLastTail(v: JsonVal, keys: seq<string>)
    requires v.Map? && keys != [] && (forall k :: k in keys ==> k in v.members) && ErrorsLast(v, keys)
    ensures ErrorsLast(v, keys[1..])
  {
    forall a | 0 <= a < |keys[1..]| && v.members[keys[1..][a]].Err?
      ensures a == |keys[1..]| - 1
    {
      assert keys[1..][a] == keys[a + 1];
    }
  }

  lemma {:induction false} InOrder(v: JsonVal, keys: seq<string>, m: map<string, JsonVal>)
    requires v.Map? && (forall k :: k in keys ==> k in v.members) && ErrorsLast(v, keys)
    requires forall k :: k in keys && !v.members[k].Err? ==> Read(v.members[k]) == Some(v.members[k])
    ensures ReadMembers(v, keys, Entries(Some(m), Some(Err))) == Entries(Some(Extend(v.members, keys, m)), Some(Err))
    decreases |keys|
  {
    if keys != [] {
      var k := keys[0];
      ErrorsLastTail(v, keys);
      assert StoreValue(v.members[k], Entries(Some(m), Some(Str(k))), |keys| == 1)
        == Entries(Some(m[k := v.members[k]]), Some(Err));
      InOrder(v, keys[1..], m[k := v.members[k]]);
    }
  }

  // ----- and no others are -----

  lemma {:induction false} ReadsSelfItems(items: seq<JsonVal>)
    ensures ReadItems(items).Some? ==> |ReadItems(items).value| <= |items|
    ensures ReadItems(items) == Some(items) ==>
      forall item :: item in items ==> !item.Err? && Read(item) == Some(item)
    decreases |items|
  {
    if items != [] {
      ReadsSelfItems(items[1..]);
      if ReadItems(items) == Some(items) && !items[0].Err? {
        assert items[1..] == ([Read(items[0]).value] + ReadItems(items[1..]).value)[1..] == ReadItems(items[1..]).value;
      }
    }
  }

  ghost predicate ErrorOnlyAt(r: Option<map<string, JsonVal>>, last: string)
  {
    r.Some? ==> forall k :: k in r.value && r.value[k].Err? ==> k == last
  }

  /** An error in the map read was the last value printed. */
  lemma {:induction false} OnlyLastError(v: JsonVal, keys: seq<string>, e: Entries)
    requires v.Map? && keys != [] && forall k :: k in keys ==> k in v.members
    requires NoErrors(e)
    ensures ErrorOnlyAt(ReadMembers(v, keys, e).members, keys[|keys| - 1])
    decreases |keys|
  {
    var value, keyed := v.members[keys[0]], Store(e, Some(Str(keys[0])));
    var f := StoreValue(value, keyed, |keys| == 1);
    assert ReadMembers(v, keys, e) == ReadMembers(v, keys[1..], f);
    if !value.Err? { ReadKind(value); }
    if |keys| > 1 {
      OnlyLastError(v, keys[1..], f);
      assert keys[1..][|keys| - 2] == keys[|keys| - 1];
    }
  }

  ghost predicate NoErrors(e: Entries)
  {
    e.members.Some? ==> forall k :: k in e.members.value ==> !e.members.value[k].Err?
  }

  lemma {:induction false} StaysUnclear(v: JsonVal, keys: seq<string>, e: Entries)
    requires v.Map? && (forall k :: k in keys ==> k in v.members) && e.members.None?
    ensures ReadMembers(v, keys, e).members.None?
    decreases |keys|
  {
    if keys != [] {
      StaysUnclear(v, keys[1..], StoreValue(v.members[keys[0]], Store(e, Some(Str(keys[0]))), |keys| == 1));
    }
  }

  predicate AllDistinct(keys: seq<string>) { forall a, b :: 0 <= a < b < |keys| ==> keys[a] != keys[b] }

  /** With errors last only, each key gets what reading its value gives. */
  lemma {:induction false} EachRead(v: JsonVal, keys: seq<string>, m: map<string, JsonVal>)
    requires v.Map? && (forall k :: k in keys ==> k in v.members) && ErrorsLast(v, keys)
    requires AllDistinct(keys) && ReadMembers(v, keys, Entries(Some(m), Some(Err))).members.Some?
    ensures var r := ReadMembers(v, keys, Entries(Some(m), Some(Err))).members.value;
      && (forall k :: k in m && k !in keys ==> k in r && r[k] == m[k])
      && forall k :: k in keys && !v.members[k].Err? ==> k in r && Read(v.members[k]) == Some(r[k])
    decreases |keys|
  {
    if keys != [] {
      var k := keys[0];
      var f := StoreValue(v.members[k], Entries(Some(m), Some(Str(k))), |keys| == 1);
      if f.members.None? { StaysUnclear(v, keys[1..], f); }
      ErrorsLastTail(v, keys);
      EachRead(v, keys[1..], f.members.value);
      assert k !in keys[1..];
    }
  }

  lemma {:induction false} ReadsSelfIsSafe(v: JsonVal)
    requires !v.Err? && Lexical(v) && Read(v) == Some(v)
    ensures DumpSafe(v)
    decreases v, 1
  {
    match v
    case List(items) =>
      ReadsSelfItems(items);
      forall item | item in items
        ensures DumpSafe(item)
      {
        ReadsSelfIsSafe(item);
      }
    case Map(m) => ReadsSelfMap(v);
    case _ =>
  }

  lemma {:induction false} ReadsSelfMap(v: JsonVal)
    requires v.Map? && Lexical(v) && Read(v) == Some(v)
    ensures DumpSafe(v)
    decreases v, 0
  {
    SortedIsSorting(v.members.Keys);
    ReadsSelfMembers(v, SortedKeys(v.members.Keys));
  }

  lemma {:induction false} ReadsSelfMembers(v: JsonVal, keys: seq<string>)
    requires v.Map? && Lexical(v) && Sorting(v.members.Keys, keys)
    requires ReadMembers(v, keys, NO_ENTRIES).members == Some(v.members)
    ensures DumpSafe(v)
    decreases v, 0, 0
  {
    if keys != [] {
      OnlyLastError(v, keys, NO_ENTRIES);
      assert ErrorsLast(v, keys);
      EachRead(v, keys, map[]);
    }
    forall k | k in v.members
      ensures DumpSafe(v.members[k]) || (v.members[k].Err? && IsGreatest(v.members.Keys, k))
    {
      if !v.members[k].Err? { ReadsSelfIsSafe(v.members[k]); }
    }
  }

  ghost predicate Sorting(s: set<string>, keys: seq<string>)
  {
    && (forall k :: k in keys <==> k in s) && AllDistinct(keys)
    && (keys != [] ==> IsGreatest(s, keys[|keys| - 1]))
  }

  lemma SortedIsSorting(s: set<string>)
    ensures Sorting(s, SortedKeys(s))
  {
    var keys := SortedKeys(s);
    forall a, b | 0 <= a < b < |keys|
      ensures keys[a] != keys[b]
    {
      BeforeTrichotomy(keys[a], keys[b]);
    }
    forall j | j in s && j != keys[|keys| - 1]
      ensures Before(j, keys[|keys| - 1])
    {
      var a :| 0 <= a < |keys| && keys[a] == j;
    }
  }

  // ----- what the parser can return at all -----

  lemma {:induction false} ParsedString(json: string, i: nat, str: string)
    requires forall k :: 0 <= k < |str| && str[k] == QUOTE ==> k > 0 && str[k - 1] == BACKSLASH
    ensures Lexical(ParseString(json, i, str).value)
    decreases |json| - i
  {
    if i < |json| && !(json[i] == QUOTE && (str == "" || str[|str| - 1] != BACKSLASH)) {
      ParsedString(json, i + 1, str + [json[i]]);
    }
  }

  lemma {:induction false} ParsedNum(json: string, i: nat, str: string)
    requires AllDigits(str) && (str != "" || (i < |json| && IsDigit(json[i])))
    ensures var r := ParseNum(json, i, str); r.Done? ==> Lexical(r.value)
    decreases |json| - i
  {
    if i < |json| && IsDigit(json[i]) {
      ParsedNum(json, i + 1, str + [json[i]]);
    }
  }

  /** Whatever the text, every string, key and number in the result is `Lexical`. */
  lemma {:induction false} ParsedIsLexical(json: string, i: nat)
    ensures var r := Parse(json, i); r.Done? ==> Lexical(r.value)
    decreases Left(json, i), 0
  {
    if i < |json| {
      ParsedHereIsLexical(json, i);
      if json[i] != ']' && json[i] != '}' {
        var r := ParseAt(json, i);
        if r.Done? && r.value.Err? { ParsedIsLexical(json, r.next + 1); }
      }
    }
  }

  lemma {:induction false} ParsedHereIsLexical(json: string, i: nat)
    requires i < |json|
    ensures var r := ParseAt(json, i); r.Done? ==> Lexical(r.value)
    decreases Left(json, i), 0, 0
  {
    if json[i] == QUOTE { ParsedString(json, i + 1, ""); }
    else if IsDigit(json[i]) { ParsedNum(json, i, ""); }
    else if json[i] == '[' { ParsedList(json, i + 1, Some([])); }
    else if json[i] == '{' { ParsedMap(json, i + 1, NO_ENTRIES); }
  }

  lemma {:induction false} ParsedList(json: string, i: nat, items: Option<seq<JsonVal>>)
    requires items.Some? ==> AllLexical(items.value)
    ensures var r := ParseList(json, i, items); r.Done? ==> Lexical(r.value)
    decreases Left(json, i), 1
  {
    if i < |json| && json[i] != ']' {
      ParsedIsLexical(json, i);
      var r := Parse(json, i);
      if Ended(r) && r.next != i {
        ParsedList(json, r.next, Push(items, Content(r)));
      }
    }
  }

  ghost predicate EntriesLexical(e: Entries)
  {
    (e.members.Some? ==> MembersLexical(Map(e.members.value))) && (e.key.Some? ==> Lexical(e.key.value))
  }

  lemma {:induction false} ParsedMap(json: string, i: nat, e: Entries)
    requires EntriesLexical(e)
    ensures var r := ParseMap(json, i, e); r.Done? ==> Lexical(r.value)
    decreases Left(json, i), 1
  {
    if i < |json| && json[i] != '}' {
      ParsedIsLexical(json, i);
      var r := Parse(json, i);
      if Ended(r) && r.next != i {
        ParsedMap(json, r.next, Store(e, Content(r)));
      }
    }
  }

  // ----- the round trip -----

  /** Wherever in a text its printed form stands, a dump-safe value is read and nothing more. */
  lemma ReadsSafe(json: string, i: nat, v: JsonVal, next: nat)
    requires DumpSafe(v) && At(json, i, Dump(v)) && next == i + |Dump(v)| && (v.Num? ==> Ends(json, next))
    ensures Parse(json, i) == Done(v, next)
  {
    SafeIsLexical(v);
    SafeReads(v);
    ReadsValue(json, i, v);
  }

  lemma AtSelf(t: string)
    ensures At(t, 0, t)
  {
  }

  lemma ErrRoundTrip()
    ensures Parse(Dump(Err), 0) == Done(Err, |Dump(Err)|)
  {
    var json := Dump(Err);
    AtSelf(json);
    ErrorSkipped(json, 0);
    SkipsTo(json, 0, |json|);
  }

  lemma OnlySafe(v: JsonVal)
    requires !v.Err? && Parse(Dump(v), 0) == Done(v, |Dump(v)|)
    ensures DumpSafe(v)
  {
    ParsedIsLexical(Dump(v), 0);
    AtSelf(Dump(v));
    ReadsValue(Dump(v), 0, v);
    ReadsSelfIsSafe(v);
  }

  /** For every value: reading back its text gives the value exactly when it is the error value
      itself or all its parts are ones that survive printing. */
  lemma RoundTrip(v: JsonVal)
    ensures Parse(Dump(v), 0) == Done(v, |Dump(v)|) <==> v.Err? || DumpSafe(v)
  {
    if v.Err? {
      ErrRoundTrip();
    } else {
      if DumpSafe(v) {
        AtSelf(Dump(v));
        ReadsSafe(Dump(v), 0, v, |Dump(v)|);
      }
      if Parse(Dump(v), 0) == Done(v, |Dump(v)|) { OnlySafe(v); }
    }
  }

  /** Of the values made from an `int`, the non-negative ones survive: the minus sign is skipped. */
  lemma IntRoundTrip(n: int)
    requires -INT_MAX - 1 <= n <= INT_MAX
    ensures Parse(Dump(FromInt(n)), 0) == Done(FromInt(n), |Dump(FromInt(n))|) <==> n >= 0
  {
    if n < 0 { assert FromInt(n).text[0] == '-'; } else { NumeralValue(n); }
    RoundTrip(FromInt(n));
  }
}
