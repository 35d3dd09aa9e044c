/** The JSON values of the extension library: their textual form and the cursor parser
    that reads it back (src/lib_api.cc). */
module Json {
  import opened KeyOrder
  import opened Wrappers

  /** `Err` is the default value.  A number keeps the digits it was read from next to its
      value.  Maps are keyed by strings; see `Unclear` below. */
  datatype JsonVal =
    | Err
    | Str(s: string)
    | Num(n: int, text: string)
    | List(items: seq<JsonVal>)
    | Map(members: map<string, JsonVal>)

  const INT_MAX := 0x7fff_ffff
  const QUOTE := '"'
  const BACKSLASH := '\\'

  predicate IsDigit(c: char) { '0' <= c <= '9' }

  predicate AllDigits(t: string) { forall i :: 0 <= i < |t| ==> IsDigit(t[i]) }

  /** The value of a decimal numeral. */
  function Value(t: string): (n: nat)
    requires AllDigits(t)
  {
    if t == "" then 0 else 10 * Value(t[..|t| - 1]) + (t[|t| - 1] as int - '0' as int)
  }

  /** `std::to_string` on a non-negative integer. */
  function Numeral(n: nat): (t: string)
  {
    var d := ('0' as int + n % 10) as char;
    if n < 10 then [d] else Numeral(n / 10) + [d]
  }

  lemma {:induction false} NumeralValue(n: nat)
    ensures Numeral(n) != "" && AllDigits(Numeral(n)) && Value(Numeral(n)) == n
  {
    var t := Numeral(n);
    if n < 10 {
      assert t[..0] == "";
    } else {
      NumeralValue(n / 10);
      assert t[..|t| - 1] == Numeral(n / 10);
    }
  }

  /** `JsonVal(int)`. */
  function FromInt(n: int): (v: JsonVal)
  {
    Num(n, if n < 0 then "-" + Numeral(-n) else Numeral(n))
  }

  // ----- printing -----

  ghost function Dump(v: JsonVal): (t: string)
    decreases v
  {
    match v
    case Err => "json(Error)"
    case Str(s) => [QUOTE] + s + [QUOTE]
    case Num(_, text) => text
    case List(items) => "[" + DumpItems(items) + "]"
    case Map(m) => "{" + DumpMembers(v, SortedKeys(m.Keys)) + "}"
  }

  ghost function DumpItems(items: seq<JsonVal>): (t: string)
    decreases items
  {
    if items == [] then ""
    else if |items| == 1 then Dump(items[0])
    else Dump(items[0]) + "," + DumpItems(items[1..])
  }

  ghost function DumpMember(v: JsonVal, k: string): (t: string)
    requires v.Map? && k in v.members
    decreases v, 0
  {
    [QUOTE] + k + [QUOTE] + " : " + Dump(v.members[k])
  }

  ghost function DumpMembers(v: JsonVal, keys: seq<string>): (t: string)
    requires v.Map? && forall k :: k in keys ==> k in v.members
    decreases v, 1 + |keys|
  {
    if keys == [] then ""
    else if |keys| == 1 then DumpMember(v, keys[0])
    else DumpMember(v, keys[0]) + "," + DumpMembers(v, keys[1..])
  }

  /** `JsonVal::dump`: the text is accumulated left to right. */
  method DumpText(v: JsonVal) returns (ret: string)
    ensures ret == Dump(v)
    decreases v
  {
    match v {
      case Err => ret := "json(Error)";
      case Str(s) => ret := [QUOTE] + s + [QUOTE];
      case Num(_, text) => ret := text;
      case List(items) => ret := DumpListText(items);
      case Map(_) => ret := DumpMapText(v);
    }
  }

  method DumpListText(items: seq<JsonVal>) returns (ret: string)
    ensures ret == "[" + DumpItems(items) + "]"
    decreases items
  {
    ret := "[";
    var i := 0;
    while i < |items|
      invariant 0 <= i <= |items|
      invariant ret + DumpItems(items[i..]) == "[" + DumpItems(items)
    {
      ghost var before, rest := ret, items[i..];
      var item := DumpText(items[i]);
      assert rest[1..] == items[i + 1..];
      ret := ret + item;
      if i < |items| - 1 {
        ret := ret + ",";
        assert ret + DumpItems(items[i + 1..]) == before + DumpItems(rest);
      } else {
        assert ret + DumpItems(items[i + 1..]) == before + DumpItems(rest);
      }
      i := i + 1;
    }
    ret := ret + "]";
  }

  lemma DumpMembersCons(v: JsonVal, k: string, tail: seq<string>)
    requires v.Map? && k in v.members && forall j :: j in tail ==> j in v.members
    ensures DumpMembers(v, [k] + tail) == DumpMember(v, k) + (if tail == [] then "" else "," + DumpMembers(v, tail))
  {
    assert ([k] + tail)[1..] == tail;
  }

  lemma DumpMembersStep(v: JsonVal, rest: set<string>, k: string)
    requires v.Map? && rest <= v.members.Keys && IsLeast(rest, k)
    ensures DumpMembers(v, SortedKeys(rest)) == DumpMember(v, k)
      + (if rest == {k} then "" else "," + DumpMembers(v, SortedKeys(rest - {k})))
  {
    LeastUnique(rest, k);
    SortedKeysEmpty(rest - {k});
    DumpMembersCons(v, k, SortedKeys(rest - {k}));
  }

  method DumpMapText(v: JsonVal) returns (ret: string)
    requires v.Map?
    ensures ret == "{" + DumpMembers(v, SortedKeys(v.members.Keys)) + "}"
    decreases v, 2
  {
    ret := "{";
    var rest := v.members.Keys;
    ghost var whole := "{" + DumpMembers(v, SortedKeys(v.members.Keys));
    while rest != {}
      invariant rest <= v.members.Keys
      invariant whole == ret + DumpMembers(v, SortedKeys(rest))
      decreases rest
    {
      LeastExists(rest);
      var k :| IsLeast(rest, k);
      DumpMembersStep(v, rest, k);
      var member := DumpMemberText(v, k);
      if rest == {k} {
        assert rest - {k} == {};
        assert whole == (ret + member) + "";
        ret := ret + member;
      } else {
        ghost var tail := DumpMembers(v, SortedKeys(rest - {k}));
        Regroup(ret, member, ",", tail);
        ret := ret + member + ",";
      }
      rest := rest - {k};
    }
    ret := ret + "}";
  }

  method DumpMemberText(v: JsonVal, k: string) returns (ret: string)
    requires v.Map? && k in v.members
    ensures ret == DumpMember(v, k)
    decreases v, 1
  {
    var value := DumpText(v.members[k]);
    ret := [QUOTE] + k + [QUOTE] + " : " + value;
  }

  lemma Regroup(a: string, b: string, c: string, d: string)
    ensures a + (b + (c + d)) == a + b + c + d
  {
  }

  // ----- parsing -----

  /** How a parsing call ends.  The source performs no progress check, so the cases where
      it loops for ever or throws are outcomes of their own.  Storing under a key that is no
      string leaves the content of the map to an `operator<` that is no ordering: reading goes
      on, and where it ends is known, but not what was read. */
  datatype Outcome =
    | Done(value: JsonVal, next: nat)
    | Unclear(next: nat)  // a list or map with a part stored under a key that is no string
    | Hang                // a loop iteration leaves cursor and value unchanged
    | Throw               // std::out_of_range, from `stoi` or from `substr` past the end

  predicate Ended(o: Outcome) { o.Done? || o.Unclear? }

  /** What was read, as far as it is known. */
  function Content(o: Outcome): Option<JsonVal>
    requires Ended(o)
  {
    if o.Done? then Some(o.value) else None
  }

  function ParseString(json: string, idx: nat, str: string): (r: Outcome)
    ensures r.Done?
    ensures r.next >= idx && (r.value.Err? || r.next > idx)
    decreases |json| - idx
  {
    if idx >= |json| then Done(Err, idx)
    else if json[idx] == QUOTE && (str == "" || str[|str| - 1] != BACKSLASH) then Done(Str(str), idx + 1)
    else ParseString(json, idx + 1, str + [json[idx]])
  }

  function ParseNum(json: string, idx: nat, str: string): (r: Outcome)
    requires AllDigits(str)
    ensures r.Throw? || r.Done?
    ensures r.Done? ==> r.value.Num? && r.next >= idx && (str == "" ==> r.next > idx || r.value.text == "")
    decreases |json| - idx
  {
    if idx < |json| && IsDigit(json[idx]) then ParseNum(json, idx + 1, str + [json[idx]])
    else if Value(str) > INT_MAX then Throw
    else Done(Num(Value(str), str), idx)
  }

  /** What is left to read; a cursor past the end counts as nothing left. */
  function Left(json: string, idx: nat): nat
  {
    if idx < |json| then |json| - idx else 0
  }

  /** A list so far; `None` when an item is unclear. */
  function Push(items: Option<seq<JsonVal>>, item: Option<JsonVal>): Option<seq<JsonVal>>
  {
    if item == Some(Err) then items
    else if items.Some? && item.Some? then Some(items.value + [item.value])
    else None
  }

  function ListOf(items: Option<seq<JsonVal>>, next: nat): Outcome
  {
    if items.Some? then Done(List(items.value), next) else Unclear(next)
  }

  function ParseList(json: string, idx: nat, items: Option<seq<JsonVal>>): (r: Outcome)
    ensures Ended(r) ==> r.next >= idx
    ensures r.Done? ==> r.value.List? || (r.value.Err? && r.next == |json|)
    decreases Left(json, idx), 1
  {
    if idx > |json| then Throw  // the error message takes `substr` past the end
    else if idx == |json| then Done(Err, idx)
    else if json[idx] == ']' then ListOf(items, idx + 1)
    else
      var item := Parse(json, idx);
      if !Ended(item) then item
      else if item.next == idx then Hang  // a stray '}': nothing was read or pushed
      else ParseList(json, item.next, Push(items, Content(item)))
  }

  /** A map so far and its pending key; the error value stands for no key. */
  datatype Entries = Entries(members: Option<map<string, JsonVal>>, key: Option<JsonVal>)

  const NO_ENTRIES := Entries(Some(map[]), Some(Err))

  function Store(e: Entries, item: Option<JsonVal>): Entries
  {
    if e.key == Some(Err) then e.(key := item)
    else if e.members.Some? && e.key.Some? && e.key.value.Str? && item.Some? then
      Entries(Some(e.members.value[e.key.value.s := item.value]), Some(Err))
    else Entries(None, Some(Err))
  }

  function MapOf(e: Entries, next: nat): Outcome
  {
    if e.members.Some? then Done(Map(e.members.value), next) else Unclear(next)
  }

  function ParseMap(json: string, idx: nat, e: Entries): (r: Outcome)
    ensures Ended(r) ==> r.next >= idx
    ensures r.Done? ==> r.value.Map? || (r.value.Err? && r.next == |json|)
    decreases Left(json, idx), 1
  {
    if idx > |json| then Throw
    else if idx == |json| then Done(Err, idx)
    else if json[idx] == '}' then MapOf(e, idx + 1)
    else
      var item := Parse(json, idx);
      if !Ended(item) then item
      else if item.next == idx then Hang  // a stray ']': at the latest the next iteration changes nothing
      else ParseMap(json, item.next, Store(e, Content(item)))
  }

  function Parse(json: string, idx: nat): (r: Outcome)
    ensures Ended(r) ==> r.next >= idx
    ensures r.Unclear? || (r.Done? && !r.value.Err?) ==> r.next > idx
    ensures idx < |json| ==> (Ended(r) && r.next == idx <==> json[idx] == ']' || json[idx] == '}')
    ensures r.Done? && r.value.Err? && r.next < |json| ==> json[r.next] == ']' || json[r.next] == '}'
    decreases Left(json, idx), 0
  {
    if idx >= |json| then Done(Err, idx)
    else if json[idx] == ']' || json[idx] == '}' then Done(Err, idx)
    else
      var r := ParseAt(json, idx);
      if r.Done? && r.value.Err? then Parse(json, r.next + 1) else r
  }

  /** One dispatch on the character under the cursor; `Done(Err, idx)` for a skipped one. */
  function ParseAt(json: string, idx: nat): (r: Outcome)
    requires idx < |json|
    ensures Ended(r) ==> r.next >= idx
    ensures r.Unclear? || (r.Done? && !r.value.Err?) ==> r.next > idx
    decreases Left(json, idx), 0, 0
  {
    if json[idx] == QUOTE then ParseString(json, idx + 1, "")
    else if IsDigit(json[idx]) then
      ParseNum(json, idx, "")
    else if json[idx] == '[' then ParseList(json, idx + 1, Some([]))
    else if json[idx] == '{' then ParseMap(json, idx + 1, NO_ENTRIES)
    else Done(Err, idx)
  }
}
