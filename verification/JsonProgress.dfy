/** When parsing does not end (src/lib_api.cc): a single scan from left to right, with a stack of
    open brackets in place of the recursion, decides it. */
module JsonProgress {
  import opened Json
  import opened JsonReading
  import opened JsonRoundTrip
  import opened Wrappers

  datatype Bracket = Square | Curly

  /** Scanning from `i` inside the brackets `open` meets a closer that does not match the
      innermost bracket, before the text or the value ends or a number is too large. */
  ghost predicate Mismatch(json: string, i: nat, open: seq<Bracket>)
    decreases Left(json, i), 1
  {
    if i >= |json| then false
    else if json[i] == QUOTE then
      var r := ParseString(json, i + 1, "");
      !r.value.Err? && Resumes(json, r.next, open)
    else if IsDigit(json[i]) then
      var r := ParseNum(json, i, "");
      r.Done? && Left(json, r.next) < Left(json, i) && Resumes(json, r.next, open)
    else if json[i] == '[' then Mismatch(json, i + 1, open + [Square])
    else if json[i] == '{' then Mismatch(json, i + 1, open + [Curly])
    else if json[i] == ']' || json[i] == '}' then
      && open != []
      && ((json[i] == ']') == open[|open| - 1].Square? ==> Resumes(json, i + 1, open[..|open| - 1]))
    else Mismatch(json, i + 1, open)
  }

  /** The scan after a complete value: outside all brackets it is over. */
  ghost predicate Resumes(json: string, i: nat, open: seq<Bracket>)
    decreases Left(json, i), 2
  {
    open != [] && Mismatch(json, i, open)
  }

  /** What the scan says, given how a call that reads one value ends. */
  ghost predicate Agrees(json: string, o: Outcome, open: seq<Bracket>, found: bool)
  {
    match o
    case Hang => found
    case Throw => !found
    case Unclear(next) => found == Resumes(json, next, open)
    case Done(value, next) => found == if value.Err? then Mismatch(json, next, open) else Resumes(json, next, open)
  }

  lemma {:induction false} ScanValue(json: string, i: nat, open: seq<Bracket>)
    ensures Agrees(json, Parse(json, i), open, Mismatch(json, i, open))
    decreases Left(json, i), 0
  {
    if i < |json| && json[i] != ']' && json[i] != '}' {
      ScanHere(json, i, open);
      var r := ParseAt(json, i);
      if r.Done? && r.value.Err? { ScanValue(json, r.next + 1, open); }
    }
  }

  /** One dispatch; a skipped character and an unfinished value continue behind it. */
  lemma {:induction false} ScanHere(json: string, i: nat, open: seq<Bracket>)
    requires i < |json| && json[i] != ']' && json[i] != '}'
    ensures var r := ParseAt(json, i);
      if r.Done? && r.value.Err? then Mismatch(json, i, open) == Mismatch(json, r.next + 1, open)
      else Agrees(json, r, open, Mismatch(json, i, open))
    decreases Left(json, i), 0, 0
  {
    if json[i] == '[' {
      ScanList(json, i + 1, Some([]), open);
    } else if json[i] == '{' {
      ScanMap(json, i + 1, NO_ENTRIES, open);
    } else if json[i] == QUOTE {
      Unfinished(json, i + 1, "");
    } else if IsDigit(json[i]) {
      NumberMoves(json, i);
    }
  }

  lemma {:induction false} Unfinished(json: string, i: nat, str: string)
    requires i <= |json|
    ensures var r := ParseString(json, i, str); r.value.Str? || (r.value.Err? && r.next == |json|)
    decreases |json| - i
  {
    if i < |json| && !(json[i] == QUOTE && (str == "" || str[|str| - 1] != BACKSLASH)) {
      Unfinished(json, i + 1, str + [json[i]]);
    }
  }

  lemma NumberMoves(json: string, i: nat)
    requires i < |json| && IsDigit(json[i])
    ensures var r := ParseNum(json, i, ""); r.Done? ==> r.next > i
  {
    var r := ParseNum(json, i + 1, [json[i]]);
    assert "" + [json[i]] == [json[i]];
  }

  ghost predicate LoopAgrees(json: string, o: Outcome, outer: seq<Bracket>, found: bool)
  {
    found == (o == Hang || ((o.Unclear? || (o.Done? && !o.value.Err?)) && Resumes(json, o.next, outer)))
  }

  lemma {:induction false} ScanList(json: string, i: nat, items: Option<seq<JsonVal>>, outer: seq<Bracket>)
    ensures LoopAgrees(json, ParseList(json, i, items), outer, Mismatch(json, i, outer + [Square]))
    decreases Left(json, i), 1
  {
    var open := outer + [Square];
    assert open[..|open| - 1] == outer;
    if i < |json| && json[i] != ']' {
      ScanValue(json, i, open);
      var item := Parse(json, i);
      if Ended(item) && item.next != i {
        ScanList(json, item.next, Push(items, Content(item)), outer);
      }
    }
  }

  lemma {:induction false} ScanMap(json: string, i: nat, e: Entries, outer: seq<Bracket>)
    ensures LoopAgrees(json, ParseMap(json, i, e), outer, Mismatch(json, i, outer + [Curly]))
    decreases Left(json, i), 1
  {
    var open := outer + [Curly];
    assert open[..|open| - 1] == outer;
    if i < |json| && json[i] != '}' {
      ScanValue(json, i, open);
      var item := Parse(json, i);
      if Ended(item) && item.next != i {
        ScanMap(json, item.next, Store(e, Content(item)), outer);
      }
    }
  }

  /** Parsing a text fails to end if and only if the scan finds a mismatched closer. */
  lemma HangsExactly(json: string)
    ensures Parse(json, 0) == Hang <==> Mismatch(json, 0, [])
  {
    ScanValue(json, 0, []);
  }

  /** In particular a brace that closes a list, whatever was printed into the list before and
      whatever is skipped in between. */
  lemma StrayBraceHangs(json: string, i: nat, items: seq<JsonVal>, end: nat, stop: nat)
    requires i < |json| && json[i] == '[' && forall item :: item in items ==> DumpSafe(item)
    requires ItemsAt(json, i + 1, items, end) && AllSkipped(json, end, stop) && stop < |json| && json[stop] == '}'
    ensures Parse(json, i) == Hang
  {
    forall item | item in items
      ensures Lexical(item)
    {
      SafeIsLexical(item);
    }
    assert Ends(json, end) by { assert end < stop ==> Skipped(json[end]); }
    ReadsItems(json, i + 1, items, Some([]), end);
    var r := Extended(Some([]), ReadItems(items));
    ListSkipsTo(json, end, stop, r);
    assert ParseList(json, stop, r) == Hang;
  }
}
