/** What the parser makes of a printed value, wherever it stands in a text (src/lib_api.cc). */
module JsonReading {
  import opened Json
  import opened KeyOrder
  import opened Wrappers

  // ----- strings and numbers that survive -----

  /** Strings are written and read without escaping: a quote is kept exactly when a
      backslash stands right before it, and a closing backslash would keep the closing quote. */
  predicate SafeString(s: string)
  {
    && (forall i :: 0 <= i < |s| && s[i] == QUOTE ==> i > 0 && s[i - 1] == BACKSLASH)
    && (s != "" ==> s[|s| - 1] != BACKSLASH)
  }

  predicate SafeNum(n: int, text: string)
  {
    text != "" && AllDigits(text) && n == Value(text) && n <= INT_MAX
  }

  /** Every string, key and number in `v` is one the parser could have produced. */
  ghost predicate Lexical(v: JsonVal)
    decreases v, 1
  {
    match v
    case Err => true
    case Str(s) => SafeString(s)
    case Num(n, text) => SafeNum(n, text)
    case List(items) => AllLexical(items)
    case Map(_) => MembersLexical(v)
  }

  ghost predicate AllLexical(items: seq<JsonVal>)
    decreases items, 0
  {
    forall item :: item in items ==> Lexical(item)
  }

  ghost predicate MembersLexical(v: JsonVal)
    requires v.Map?
    decreases v, 0
  {
    forall k :: k in v.members ==> SafeString(k) && Lexical(v.members[k])
  }

  // ----- the text under the cursor -----

  predicate At(json: string, i: nat, t: string)
  {
    i + |t| <= |json| && forall k :: 0 <= k < |t| ==> json[i + k] == t[k]
  }

  lemma AtSplit(json: string, i: nat, a: string, b: string)
    requires At(json, i, a + b)
    ensures At(json, i, a) && At(json, i + |a|, b)
  {
    forall k | 0 <= k < |a|
      ensures json[i + k] == a[k]
    {
      assert (a + b)[k] == a[k];
    }
    forall k | 0 <= k < |b|
      ensures json[i + |a| + k] == b[k]
    {
      assert (a + b)[|a| + k] == b[k];
    }
  }

  lemma AtChar(json: string, i: nat, t: string, k: nat)
    requires At(json, i, t) && k < |t|
    ensures json[i + k] == t[k]
  {
  }

  lemma LastAt(json: string, i: nat, head: string, close: string)
    requires |close| == 1 && At(json, i, head + close)
    ensures At(json, i, head) && i + |head| < |json| && json[i + |head|] == close[0]
  {
    AtSplit(json, i, head, close);
    AtChar(json, i + |head|, close, 0);
  }

  lemma CommaAt(json: string, i: nat, head: string, tail: string, close: string)
    requires At(json, i, head + "," + tail + close)
    ensures At(json, i, head) && i + |head| < |json| && json[i + |head|] == ','
    ensures At(json, i + |head| + 1, tail + close)
  {
    assert head + "," + tail + close == (head + ",") + (tail + close);
    AtSplit(json, i, head + ",", tail + close);
    LastAt(json, i, head, ",");
  }

  // ----- strings and numbers -----

  lemma {:induction false} ReadsString(json: string, i: nat, s: string, k: nat)
    requires SafeString(s) && At(json, i, s + [QUOTE]) && k <= |s|
    ensures ParseString(json, i + k, s[..k]) == Done(Str(s), i + |s| + 1)
    decreases |s| - k
  {
    AtChar(json, i, s + [QUOTE], k);
    if k < |s| {
      assert s[..k] + [s[k]] == s[..k + 1];
      ReadsString(json, i, s, k + 1);
    } else {
      assert s[..k] == s;
    }
  }

  lemma {:induction false} ReadsNum(json: string, i: nat, t: string, k: nat)
    requires AllDigits(t) && Value(t) <= INT_MAX && At(json, i, t) && k <= |t|
    requires i + |t| < |json| ==> !IsDigit(json[i + |t|])
    ensures ParseNum(json, i + k, t[..k]) == Done(Num(Value(t), t), i + |t|)
    decreases |t| - k
  {
    if k < |t| {
      AtChar(json, i, t, k);
      assert t[..k] + [t[k]] == t[..k + 1];
      ReadsNum(json, i, t, k + 1);
    } else {
      assert t[..k] == t;
    }
  }

  // ----- what is skipped -----

  /** Neither value nor bracket begins here: the parser steps over the character. */
  predicate Skipped(c: char) { !Opens(c) && c != ']' && c != '}' }

  predicate Opens(c: char) { c == QUOTE || IsDigit(c) || c == '[' || c == '{' }

  predicate AllSkipped(json: string, i: nat, j: nat)
  {
    i <= j <= |json| && forall k :: i <= k < j ==> Skipped(json[k])
  }

  lemma {:induction false} SkipsTo(json: string, i: nat, j: nat)
    requires AllSkipped(json, i, j)
    ensures Parse(json, i) == Parse(json, j)
    decreases j - i
  {
    if i < j {
      assert Skipped(json[i]);
      SkipsTo(json, i + 1, j);
    }
  }

  lemma ListSkipsTo(json: string, i: nat, j: nat, items: Option<seq<JsonVal>>)
    requires AllSkipped(json, i, j)
    ensures ParseList(json, i, items) == ParseList(json, j, items)
  {
    if i < j {
      assert Skipped(json[i]);
      SkipsTo(json, i, j);
    }
  }

  lemma MapSkipsTo(json: string, i: nat, j: nat, e: Entries)
    requires AllSkipped(json, i, j) && j < |json| && Opens(json[j])
    ensures ParseMap(json, i, e) == ParseMap(json, j, e)
  {
    if i < j {
      assert Skipped(json[i]);
      SkipsTo(json, i, j);
    }
  }

  // ----- the value read for a printed value -----

  /** What reading back the text of `v` gives.  Errors are printed as text that is skipped:
      they drop out of lists, and in a map the next key is taken for the missing value, so that
      keys and values change places.  `None` where a value that is no string is used as a key. */
  ghost function Read(v: JsonVal): Option<JsonVal>
    requires !v.Err?
    decreases v, 2
  {
    match v
    case Str(_) => Some(v)
    case Num(_, _) => Some(v)
    case List(items) => var r := ReadItems(items); if r.Some? then Some(List(r.value)) else None
    case Map(m) =>
      var r := ReadMembers(v, SortedKeys(m.Keys), NO_ENTRIES).members;
      if r.Some? then Some(Map(r.value)) else None
  }

  ghost function ReadItems(items: seq<JsonVal>): Option<seq<JsonVal>>
    decreases items
  {
    if items == [] then Some([])
    else
      var rest := ReadItems(items[1..]);
      if items[0].Err? then rest
      else
        var r := Read(items[0]);
        if r.Some? && rest.Some? then Some([r.value] + rest.value) else None
  }

  /** The map loop's state after the members with the given keys. */
  ghost function ReadMembers(v: JsonVal, keys: seq<string>, e: Entries): Entries
    requires v.Map? && forall k :: k in keys ==> k in v.members
    decreases v, 0, |keys|
  {
    if keys == [] then e
    else
      var keyed := Store(e, Some(Str(keys[0])));
      ReadMembers(v, keys[1..], StoreValue(v.members[keys[0]], keyed, |keys| == 1))
  }

  /** An error is stored only when the map closes right behind it. */
  ghost function StoreValue(value: JsonVal, e: Entries, last: bool): Entries
    decreases value, 3
  {
    if !value.Err? then Store(e, Read(value))
    else if last then Store(e, Some(Err))
    else e
  }

  // ----- reading a printed value in any text -----

  function Ending(content: Option<JsonVal>, next: nat): Outcome
  {
    if content.Some? then Done(content.value, next) else Unclear(next)
  }

  /** What follows a value in a container or at the end of the text. */
  predicate Ends(json: string, i: nat)
  {
    i < |json| ==> !IsDigit(json[i])
  }

  lemma DumpOpens(v: JsonVal)
    requires Lexical(v) && !v.Err?
    ensures |Dump(v)| > 0 && Opens(Dump(v)[0])
  {
  }

  lemma BracketAt(json: string, i: nat, open: string, body: string, close: string)
    requires |open| == 1 && At(json, i, open + body + close)
    ensures i < |json| && json[i] == open[0] && At(json, i + 1, body + close)
  {
    assert open + body + close == open + (body + close);
    AtSplit(json, i, open, body + close);
    AtChar(json, i, open, 0);
  }

  lemma ReadsQuoted(json: string, i: nat, s: string)
    requires SafeString(s) && At(json, i, [QUOTE] + s + [QUOTE])
    ensures Parse(json, i) == Done(Str(s), i + |s| + 2)
  {
    BracketAt(json, i, [QUOTE], s, [QUOTE]);
    ReadsString(json, i + 1, s, 0);
  }

  /** The main reading lemma: wherever the text of a value stands, the parser returns what
      `Read` says and stops right behind it. */
  lemma {:induction false} ReadsValue(json: string, i: nat, v: JsonVal)
    requires !v.Err? && Lexical(v) && At(json, i, Dump(v)) && (v.Num? ==> Ends(json, i + |Dump(v)|))
    ensures Parse(json, i) == Ending(Read(v), i + |Dump(v)|)
    decreases v, 2
  {
    match v {
      case Str(s) => ReadsQuoted(json, i, s);
      case Num(n, text) =>
        ReadsNum(json, i, text, 0);
        AtChar(json, i, text, 0);
      case List(items) => ReadsList(json, i, items);
      case Map(_) => ReadsMap(json, i, v);
    }
  }

  lemma {:induction false} ReadsList(json: string, i: nat, items: seq<JsonVal>)
    requires AllLexical(items)
    requires At(json, i, "[" + DumpItems(items) + "]")
    ensures Parse(json, i) == ListOf(ReadItems(items), i + |DumpItems(items)| + 2)
    decreases items, 1
  {
    BracketAt(json, i, "[", DumpItems(items), "]");
    LastAt(json, i + 1, DumpItems(items), "]");
    ReadsItems(json, i + 1, items, Some([]), i + 1 + |DumpItems(items)|);
    ExtendedFirst(ReadItems(items));
  }

  lemma HeadAt(json: string, i: nat, head: string, tail: string)
    requires At(json, i, head + "," + tail)
    ensures At(json, i, head) && i + |head| < |json| && json[i + |head|] == ',' && At(json, i + |head| + 1, tail)
  {
    AtSplit(json, i, head + ",", tail);
    LastAt(json, i, head, ",");
  }

  /** The printed items reach from `i` to `end`. */
  ghost predicate ItemsAt(json: string, i: nat, items: seq<JsonVal>, end: nat)
  {
    At(json, i, DumpItems(items)) && end == i + |DumpItems(items)|
  }

  /** Behind the first item the list ends, or a comma and the other items stand. */
  ghost predicate TailAt(json: string, j: nat, items: seq<JsonVal>, end: nat)
    requires items != []
  {
    if |items| == 1 then j == end else j < |json| && json[j] == ',' && ItemsAt(json, j + 1, items[1..], end)
  }

  lemma FirstItem(json: string, i: nat, items: seq<JsonVal>, end: nat) returns (next: nat)
    requires items != [] && ItemsAt(json, i, items, end)
    ensures At(json, i, Dump(items[0])) && next == i + |Dump(items[0])| && TailAt(json, next, items, end)
  {
    next := i + |Dump(items[0])|;
    if |items| > 1 { HeadAt(json, i, Dump(items[0]), DumpItems(items[1..])); }
  }

  function Extended(before: Option<seq<JsonVal>>, r: Option<seq<JsonVal>>): Option<seq<JsonVal>>
  {
    if before.Some? && r.Some? then Some(before.value + r.value) else None
  }

  /** The list loop, from before the first printed item to behind the last. */
  lemma {:induction false} ReadsItems(json: string, i: nat, items: seq<JsonVal>, before: Option<seq<JsonVal>>, end: nat)
    requires AllLexical(items) && ItemsAt(json, i, items, end) && Ends(json, end)
    ensures ParseList(json, i, before) == ParseList(json, end, Extended(before, ReadItems(items)))
    decreases items, 0
  {
    if items == [] {
      ExtendedNone(before);
    } else {
      var next := FirstItem(json, i, items, end);
      ReadsItem(json, i, items[0], before, next);
      ReadsTail(json, next, items, AfterItem(before, items[0]), end);
      AfterItemExtends(before, items);
    }
  }

  ghost function AfterItem(before: Option<seq<JsonVal>>, v: JsonVal): Option<seq<JsonVal>>
  {
    if v.Err? then before else Push(before, Read(v))
  }

  lemma AfterItemExtends(before: Option<seq<JsonVal>>, items: seq<JsonVal>)
    requires items != []
    ensures Extended(AfterItem(before, items[0]), ReadItems(items[1..])) == Extended(before, ReadItems(items))
  {
    if !items[0].Err? {
      ReadKind(items[0]);
      PushExtends(before, Read(items[0]), ReadItems(items[1..]));
    }
  }

  lemma ExtendedFirst(r: Option<seq<JsonVal>>)
    ensures Extended(Some([]), r) == r
  {
    if r.Some? { assert [] + r.value == r.value; }
  }

  lemma ExtendedNone(before: Option<seq<JsonVal>>)
    ensures Extended(before, Some([])) == before
  {
    if before.Some? { assert before.value + [] == before.value; }
  }

  lemma PushExtends(before: Option<seq<JsonVal>>, r: Option<JsonVal>, rest: Option<seq<JsonVal>>)
    requires r != Some(Err)
    ensures Extended(before, if r.Some? && rest.Some? then Some([r.value] + rest.value) else None)
      == Extended(Push(before, r), rest)
  {
    if before.Some? && r.Some? && rest.Some? {
      assert before.value + ([r.value] + rest.value) == before.value + [r.value] + rest.value;
    }
  }

  lemma {:induction false} ReadsItem(json: string, i: nat, v: JsonVal, before: Option<seq<JsonVal>>, next: nat)
    requires Lexical(v) && At(json, i, Dump(v)) && next == i + |Dump(v)| && Ends(json, next)
    ensures ParseList(json, i, before) == ParseList(json, next, AfterItem(before, v))
    decreases v, 3
  {
    if v.Err? {
      ErrorSkipped(json, i);
      ListSkipsTo(json, i, next, before);
    } else {
      FirstOpens(json, i, v);
      ReadsValue(json, i, v);
      ItemStep(json, i, Read(v), before, next);
    }
  }

  /** One turn of the list loop. */
  lemma ItemStep(json: string, i: nat, w: Option<JsonVal>, before: Option<seq<JsonVal>>, next: nat)
    requires i < next && i < |json| && json[i] != ']' && Parse(json, i) == Ending(w, next)
    ensures ParseList(json, i, before) == ParseList(json, next, Push(before, w))
  {
  }

  lemma {:induction false} ReadsTail(json: string, j: nat, items: seq<JsonVal>, before: Option<seq<JsonVal>>, end: nat)
    requires items != [] && AllLexical(items) && TailAt(json, j, items, end) && Ends(json, end)
    ensures ParseList(json, j, before) == ParseList(json, end, Extended(before, ReadItems(items[1..])))
    decreases items[1..], 1
  {
    if |items| == 1 {
      ExtendedNone(before);
    } else {
      ListSkipsTo(json, j, j + 1, before);
      ReadsItems(json, j + 1, items[1..], before, end);
    }
  }

  lemma ReadKind(v: JsonVal)
    requires !v.Err?
    ensures Read(v).Some? ==> !Read(v).value.Err?
  {
  }

  lemma ErrorSkipped(json: string, i: nat)
    requires At(json, i, Dump(Err))
    ensures AllSkipped(json, i, i + |Dump(Err)|)
  {
    var t := Dump(Err);
    assert forall k :: 0 <= k < |t| ==> Skipped(t[k]);
    forall k | i <= k < i + |t|
      ensures Skipped(json[k])
    {
      AtChar(json, i, t, k - i);
    }
  }

  // ----- maps -----

  lemma {:induction false} ReadsMap(json: string, i: nat, v: JsonVal)
    requires v.Map? && MembersLexical(v) && At(json, i, Dump(v))
    ensures Parse(json, i) == Ending(Read(v), i + |Dump(v)|)
    decreases v, 1
  {
    ReadsBraced(json, i, v, SortedKeys(v.members.Keys), i + |Dump(v)|);
  }

  lemma {:induction false} ReadsBraced(json: string, i: nat, v: JsonVal, keys: seq<string>, next: nat)
    requires v.Map? && MembersLexical(v) && forall k :: k in keys ==> k in v.members
    requires At(json, i, "{" + DumpMembers(v, keys) + "}") && next == i + |DumpMembers(v, keys)| + 2
    ensures Parse(json, i) == MapOf(ReadMembers(v, keys, NO_ENTRIES), next)
    decreases v, 0, |keys| + 1
  {
    BracketAt(json, i, "{", DumpMembers(v, keys), "}");
    LastAt(json, i + 1, DumpMembers(v, keys), "}");
    ReadsMembers(json, i + 1, v, keys, NO_ENTRIES, next - 1);
  }

  /** One turn of the map loop. */
  lemma MapStep(json: string, i: nat, e: Entries, w: Option<JsonVal>, next: nat)
    requires i < next && i < |json| && json[i] != '}' && Parse(json, i) == Ending(w, next)
    ensures ParseMap(json, i, e) == ParseMap(json, next, Store(e, w))
  {
  }

  /** The printed members reach from `i` to the closing brace at `end`. */
  ghost predicate MembersAt(json: string, i: nat, v: JsonVal, keys: seq<string>, end: nat)
    requires v.Map? && forall k :: k in keys ==> k in v.members
  {
    At(json, i, DumpMembers(v, keys)) && end == i + |DumpMembers(v, keys)| && end < |json| && json[end] == '}'
  }

  /** Behind the first member stands the closing brace, or a comma and the other members. */
  ghost predicate RestAt(json: string, j: nat, v: JsonVal, keys: seq<string>, end: nat)
    requires v.Map? && keys != [] && forall k :: k in keys ==> k in v.members
  {
    if |keys| == 1 then j == end < |json| && json[j] == '}'
    else j < |json| && json[j] == ',' && MembersAt(json, j + 1, v, keys[1..], end)
  }

  /** The map loop, from before the first printed member to behind the closing brace. */
  lemma {:induction false} ReadsMembers(json: string, i: nat, v: JsonVal, keys: seq<string>, e: Entries, end: nat)
    requires v.Map? && MembersLexical(v) && (forall k :: k in keys ==> k in v.members) &&
      MembersAt(json, i, v, keys, end)
    ensures ParseMap(json, i, e) == MapOf(ReadMembers(v, keys, e), end + 1)
    ensures keys != [] ==> i < |json| && json[i] == QUOTE
    decreases v, 0, |keys|
  {
    if keys != [] {
      var k := keys[0];
      var next := FirstMember(json, i, v, keys, end);
      KeyStep(json, i, k, e);
      ReadsAfterKey(json, i + |k| + 2, v, keys, Store(e, Some(Str(k))), next, end);
    }
  }

  /** Where the parts of a map's text stand. */
  lemma FirstMember(json: string, i: nat, v: JsonVal, keys: seq<string>, end: nat) returns (next: nat)
    requires v.Map? && keys != [] && (forall k :: k in keys ==> k in v.members) && MembersAt(json, i, v, keys, end)
    ensures var k, t := keys[0], Dump(v.members[keys[0]]);
      && i < |json| && json[i] == QUOTE && At(json, i + 1, k + [QUOTE])
      && ValueAt(json, i + |k| + 2, t) && next == i + |k| + 5 + |t| && RestAt(json, next, v, keys, end)
  {
    var k, t := keys[0], Dump(v.members[keys[0]]);
    next := i + |k| + 5 + |t|;
    assert |DumpMember(v, k)| == |k| + 5 + |t|;
    if |keys| > 1 { HeadAt(json, i, DumpMember(v, k), DumpMembers(v, keys[1..])); }
    MemberAt(json, i, k, t);
  }

  lemma QuotedHere(json: string, i: nat, k: string)
    requires SafeString(k) && i < |json| && json[i] == QUOTE && At(json, i + 1, k + [QUOTE])
    ensures Parse(json, i) == Done(Str(k), i + |k| + 2)
  {
    ReadsString(json, i + 1, k, 0);
  }

  lemma KeyStep(json: string, i: nat, k: string, e: Entries)
    requires SafeString(k) && i < |json| && json[i] == QUOTE && At(json, i + 1, k + [QUOTE])
    ensures ParseMap(json, i, e) == ParseMap(json, i + |k| + 2, Store(e, Some(Str(k))))
  {
    QuotedHere(json, i, k);
    MapStep(json, i, e, Some(Str(k)), i + |k| + 2);
  }

  lemma MemberAt(json: string, i: nat, k: string, value: string)
    requires At(json, i, [QUOTE] + k + [QUOTE] + " : " + value)
    ensures json[i] == QUOTE && At(json, i + 1, k + [QUOTE])
    ensures ValueAt(json, i + |k| + 2, value)
  {
    var quoted := k + [QUOTE];
    assert [QUOTE] + k + [QUOTE] + " : " + value == [QUOTE] + (quoted + (" : " + value));
    AtSplit(json, i, [QUOTE], quoted + (" : " + value));
    AtChar(json, i, [QUOTE], 0);
    AtSplit(json, i + 1, quoted, " : " + value);
    var j := i + |k| + 2;
    AtSplit(json, j, " : ", value);
    AtChar(json, j, " : ", 0); AtChar(json, j, " : ", 1); AtChar(json, j, " : ", 2);
  }

  /** Behind the key: the separators and the printed value. */
  predicate ValueAt(json: string, j: nat, value: string)
  {
    At(json, j + 3, value) && json[j] == ' ' && json[j + 1] == ':' && json[j + 2] == ' '
  }

  /** The map loop from behind the first key. */
  lemma {:induction false} ReadsAfterKey(json: string, j: nat, v: JsonVal, keys: seq<string>, e: Entries, next: nat,
      end: nat)
    requires v.Map? && MembersLexical(v) && keys != [] && forall k :: k in keys ==> k in v.members
    requires var t := Dump(v.members[keys[0]]); ValueAt(json, j, t) && next == j + 3 + |t|
    requires RestAt(json, next, v, keys, end)
    ensures ParseMap(json, j, e) ==
      MapOf(ReadMembers(v, keys[1..], StoreValue(v.members[keys[0]], e, |keys| == 1)), end + 1)
    decreases v, 0, |keys|, 1
  {
    var value := v.members[keys[0]];
    if value.Err? {
      ErrorGap(json, j);
      ReadsError(json, j, v, keys, e, next, end);
    } else {
      ValueStep(json, j, value, e, next);
      ReadsRest(json, next, v, keys, Store(e, Read(value)), end);
    }
  }

  lemma {:induction false} ReadsError(json: string, j: nat, v: JsonVal, keys: seq<string>, e: Entries, next: nat,
      end: nat)
    requires v.Map? && MembersLexical(v) && keys != [] && forall k :: k in keys ==> k in v.members
    requires j < next && AllSkipped(json, j, next) && RestAt(json, next, v, keys, end)
    ensures ParseMap(json, j, e) == MapOf(ReadMembers(v, keys[1..], StoreValue(Err, e, |keys| == 1)), end + 1)
    decreases v, 0, |keys|, 0
  {
    if |keys| == 1 {
      SkipsTo(json, j, next);
      MapStep(json, j, e, Some(Err), next);
    } else {
      ReadsMembers(json, next + 1, v, keys[1..], e, end);
      assert AllSkipped(json, j, next + 1) by { assert Skipped(json[next]); }
      MapSkipsTo(json, j, next + 1, e);
    }
  }

  /** A printed error is skipped together with the separators before it. */
  lemma ErrorGap(json: string, j: nat)
    requires ValueAt(json, j, Dump(Err))
    ensures |Dump(Err)| == 11 && AllSkipped(json, j, j + 14)
  {
    ErrorSkipped(json, j + 3);
  }

  lemma {:induction false} ValueStep(json: string, j: nat, value: JsonVal, e: Entries, next: nat)
    requires !value.Err? && Lexical(value) && ValueAt(json, j, Dump(value)) && next == j + 3 + |Dump(value)|
    requires Ends(json, next)
    ensures ParseMap(json, j, e) == ParseMap(json, next, Store(e, Read(value)))
    decreases value, 3
  {
    ReadsValue(json, j + 3, value);
    FirstOpens(json, j + 3, value);
    TextStep(json, j, Read(value), e, next);
  }

  lemma TextStep(json: string, j: nat, w: Option<JsonVal>, e: Entries, next: nat)
    requires j + 3 < |json| && AllSkipped(json, j, j + 3) && Opens(json[j + 3])
    requires j + 3 < next && Parse(json, j + 3) == Ending(w, next)
    ensures ParseMap(json, j, e) == ParseMap(json, next, Store(e, w))
  {
    MapSkipsTo(json, j, j + 3, e);
    MapStep(json, j + 3, e, w, next);
  }

  lemma FirstOpens(json: string, i: nat, v: JsonVal)
    requires !v.Err? && Lexical(v) && At(json, i, Dump(v))
    ensures i < |json| && Opens(json[i]) && |Dump(v)| > 0
  {
    DumpOpens(v);
    AtChar(json, i, Dump(v), 0);
  }

  lemma {:induction false} ReadsRest(json: string, j: nat, v: JsonVal, keys: seq<string>, e: Entries, end: nat)
    requires v.Map? && MembersLexical(v) && keys != [] && (forall k :: k in keys ==> k in v.members)
    requires RestAt(json, j, v, keys, end)
    ensures ParseMap(json, j, e) == MapOf(ReadMembers(v, keys[1..], e), end + 1)
    decreases v, 0, |keys|, 0
  {
    if |keys| > 1 {
      ReadsMembers(json, j + 1, v, keys[1..], e, end);
      MapSkipsTo(json, j, j + 1, e);
    }
  }
}
