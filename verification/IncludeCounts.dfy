/** What flattening includes adds up to: which headers are listed, how often each line is copied,
    and how files are numbered and indented. */
module IncludeCounts {
  import opened IncludeExpander
  import opened IncludeOnce
  import opened Wrappers

  // ----- counting in the output -----

  ghost function Begins(out: seq<Event>): nat
  {
    if out == [] then 0 else Begins(out[..|out| - 1]) + if out[|out| - 1].Begin? then 1 else 0
  }

  ghost function Ends(out: seq<Event>): nat
  {
    if out == [] then 0 else Ends(out[..|out| - 1]) + if out[|out| - 1].End? then 1 else 0
  }

  /** How often a line of text was copied. */
  ghost function Copies(out: seq<Event>, text: string): nat
  {
    if out == [] then 0 else Copies(out[..|out| - 1], text) + if out[|out| - 1] == Copy(text) then 1 else 0
  }

  /** How often it stands in a file. */
  ghost function Occurs(lines: seq<Line>, text: string): nat
  {
    if lines == [] then 0 else (if lines[0] == Text(text) then 1 else 0) + Occurs(lines[1..], text)
  }

  /** How often it stands in the files opened so far. */
  ghost function Owed(t: Tree, out: seq<Event>, text: string): nat
  {
    if out == [] then 0 else
      var e := out[|out| - 1];
      Owed(t, out[..|out| - 1], text) + if e.Begin? then Occurs(t.lines(e.file, e.stage), text) else 0
  }

  lemma Appends(t: Tree, out: seq<Event>, e: Event, text: string)
    ensures Begins(out + [e]) == Begins(out) + (if e.Begin? then 1 else 0)
    ensures Ends(out + [e]) == Ends(out) + (if e.End? then 1 else 0)
    ensures Copies(out + [e], text) == Copies(out, text) + (if e == Copy(text) then 1 else 0)
    ensures Owed(t, out + [e], text) ==
      Owed(t, out, text) + (if e.Begin? then Occurs(t.lines(e.file, e.stage), text) else 0)
  {
    assert (out + [e])[..|out|] == out;
  }

  // ----- numbers and indentation -----

  /** The file opened at position `i` is numbered by the files opened so far, and indented by those
      still open. */
  ghost predicate PlacedAt(out: seq<Event>, i: int)
    requires 0 <= i < |out|
  {
    out[i].Begin? ==>
      && out[i].number == Begins(out[..i]) + 1
      && out[i].depth == Begins(out[..i]) - Ends(out[..i])
  }

  ghost predicate Placed(out: seq<Event>)
  {
    forall i :: 0 <= i < |out| ==> PlacedAt(out, i)
  }

  ghost predicate Tracks(s: State, open: int)
  {
    s.count == Begins(s.out) && s.depth + open == Begins(s.out) - Ends(s.out) && Placed(s.out)
  }

  lemma PlacedAppend(out: seq<Event>, e: Event)
    requires Placed(out)
    requires e.Begin? ==> e.number == Begins(out) + 1 && e.depth == Begins(out) - Ends(out)
    ensures Placed(out + [e])
  {
    var more := out + [e];
    forall i | 0 <= i < |more|
      ensures PlacedAt(more, i)
    {
      if i < |out| {
        assert PlacedAt(out, i);
        assert more[..i] == out[..i];
      } else {
        assert more[..i] == out;
      }
    }
  }

  lemma {:induction false} ExpandTracks(t: Tree, s: State, x: string, pending: seq<string>, stage: string)
    requires Closed(t) && x in t.files && Tracks(s, 0)
    ensures Tracks(Expand(t, s, x, pending, stage), 0)
    decreases t.files - Elements(pending), 1, 0
  {
    if !Skipped(s, x, pending) {
      var entered := Enter(s, x, stage);
      var begin := Begin(s.count + 1, stage, s.depth, x);
      Appends(t, s.out, begin, "");
      PlacedAppend(s.out, begin);
      LinesTrack(t, entered, t.lines(x, stage), x, pending, stage);
      var inside := ExpandLines(t, entered, t.lines(x, stage), x, pending, stage);
      Appends(t, inside.out, End(x), "");
      PlacedAppend(inside.out, End(x));
    }
  }

  lemma {:induction false} LinesTrack(t: Tree, s: State, lines: seq<Line>, x: string, pending: seq<string>,
      stage: string)
    requires Closed(t) && x in t.files && x !in pending && LinesIn(t, lines) && Tracks(s, 1)
    ensures Tracks(ExpandLines(t, s, lines, x, pending, stage), 1)
    decreases t.files - Elements(pending), 0, |lines|
  {
    if lines != [] {
      FirstLineFirst(t, s, lines, x, pending, stage);
      LineTracks(t, s, lines[0], x, pending, stage);
      LinesTrack(t, AfterLine(t, s, lines[0], x, pending, stage), lines[1..], x, pending, stage);
    }
  }

  lemma {:induction false} LineTracks(t: Tree, s: State, line: Line, x: string, pending: seq<string>, stage: string)
    requires Closed(t) && x in t.files && x !in pending && (line.Include? ==> line.file in t.files) && Tracks(s, 1)
    ensures Tracks(AfterLine(t, s, line, x, pending, stage), 1)
    decreases t.files - Elements(pending), 0, 0
  {
    if line.Include? {
      assert x in t.files - Elements(pending) && x !in t.files - Elements(pending + [x]);
      ExpandTracks(t, s.(depth := s.depth + 1), line.file, pending + [x], stage);
    } else if line.Text? {
      Appends(t, s.out, Copy(line.s), "");
      PlacedAppend(s.out, Copy(line.s));
    }
  }

  // ----- when a file is expanded -----

  lemma {:induction false} ExpandGrows(t: Tree, s: State, x: string, pending: seq<string>, stage: string)
    requires Closed(t) && x in t.files
    ensures s.out <= Expand(t, s, x, pending, stage).out
    decreases t.files - Elements(pending), 1, 0
  {
    if !Skipped(s, x, pending) { LinesGrow(t, Enter(s, x, stage), t.lines(x, stage), x, pending, stage); }
  }

  lemma {:induction false} LinesGrow(t: Tree, s: State, lines: seq<Line>, x: string, pending: seq<string>,
      stage: string)
    requires Closed(t) && x in t.files && x !in pending && LinesIn(t, lines)
    ensures s.out <= ExpandLines(t, s, lines, x, pending, stage).out
    decreases t.files - Elements(pending), 0, |lines|
  {
    if lines != [] {
      FirstLineFirst(t, s, lines, x, pending, stage);
      if lines[0].Include? {
        assert x in t.files - Elements(pending) && x !in t.files - Elements(pending + [x]);
        ExpandGrows(t, s.(depth := s.depth + 1), lines[0].file, pending + [x], stage);
      }
      LinesGrow(t, AfterLine(t, s, lines[0], x, pending, stage), lines[1..], x, pending, stage);
    }
  }

  /** A file is opened unless it is being expanded or has been, and then again if it is the one
      meant to be included many times; otherwise nothing happens at all. */
  lemma OpensExactly(t: Tree, s: State, x: string, pending: seq<string>, stage: string)
    requires Closed(t) && x in t.files
    ensures var r := Expand(t, s, x, pending, stage);
      if x !in pending && (x !in s.history || x == "mshadow/mshadow/expr_scalar-inl.h") then
        && |s.out| < |r.out| && r.out[|s.out|] == Begin(s.count + 1, stage, s.depth, x)
        && r.out[|r.out| - 1] == End(x) && x in r.history
      else r == s
  {
    if !Skipped(s, x, pending) { LinesGrow(t, Enter(s, x, stage), t.lines(x, stage), x, pending, stage); }
  }

  // ----- lines are neither lost nor repeated -----

  /** From `s` to `r` the copies of a line are those in the files opened on the way and in `lines`. */
  ghost predicate Balanced(t: Tree, s: State, r: State, lines: seq<Line>, text: string)
  {
    Copies(r.out, text) - Copies(s.out, text) == Owed(t, r.out, text) - Owed(t, s.out, text) + Occurs(lines, text)
  }

  lemma {:induction false} ExpandBalances(t: Tree, s: State, x: string, pending: seq<string>, stage: string,
      text: string)
    requires Closed(t) && x in t.files
    ensures Balanced(t, s, Expand(t, s, x, pending, stage), [], text)
    decreases t.files - Elements(pending), 1, 0
  {
    if !Skipped(s, x, pending) {
      var entered, lines := Enter(s, x, stage), t.lines(x, stage);
      var inside := ExpandLines(t, entered, lines, x, pending, stage);
      Appends(t, s.out, Begin(s.count + 1, stage, s.depth, x), text);
      LinesBalance(t, entered, lines, x, pending, stage, text);
      Appends(t, inside.out, End(x), text);
    }
  }

  lemma {:induction false} LinesBalance(t: Tree, s: State, lines: seq<Line>, x: string, pending: seq<string>,
      stage: string, text: string)
    requires Closed(t) && x in t.files && x !in pending && LinesIn(t, lines)
    ensures Balanced(t, s, ExpandLines(t, s, lines, x, pending, stage), lines, text)
    decreases t.files - Elements(pending), 0, |lines|
  {
    if lines != [] {
      FirstLineFirst(t, s, lines, x, pending, stage);
      var s' := AfterLine(t, s, lines[0], x, pending, stage);
      LineBalances(t, s, lines[0], x, pending, stage, text);
      LinesBalance(t, s', lines[1..], x, pending, stage, text);
      BalancesChain(t, s, s', ExpandLines(t, s', lines[1..], x, pending, stage), lines, text);
    }
  }

  lemma BalancesChain(t: Tree, s: State, s': State, r: State, lines: seq<Line>, text: string)
    requires lines != [] && Balanced(t, s, s', [lines[0]], text) && Balanced(t, s', r, lines[1..], text)
    ensures Balanced(t, s, r, lines, text)
  {
    assert Occurs([lines[0]], text) == if lines[0] == Text(text) then 1 else 0;
  }

  lemma {:induction false} LineBalances(t: Tree, s: State, line: Line, x: string, pending: seq<string>,
      stage: string, text: string)
    requires Closed(t) && x in t.files && x !in pending && (line.Include? ==> line.file in t.files)
    ensures Balanced(t, s, AfterLine(t, s, line, x, pending, stage), [line], text)
    decreases t.files - Elements(pending), 0, 0
  {
    if line.Include? {
      assert x in t.files - Elements(pending) && x !in t.files - Elements(pending + [x]);
      ExpandBalances(t, s.(depth := s.depth + 1), line.file, pending + [x], stage, text);
    } else if line.Text? {
      Appends(t, s.out, Copy(line.s), text);
    }
  }

  // ----- system headers -----

  /** The event opens a file that has the header on one of its lines. */
  ghost predicate Brings(t: Tree, e: Event, h: string)
  {
    e.Begin? && System(h) in t.lines(e.file, e.stage)
  }

  ghost predicate BroughtIn(t: Tree, out: seq<Event>, h: string)
  {
    exists i :: 0 <= i < |out| && Brings(t, out[i], h)
  }

  lemma BroughtAppend(t: Tree, out: seq<Event>, e: Event, h: string)
    ensures BroughtIn(t, out + [e], h) <==> BroughtIn(t, out, h) || Brings(t, e, h)
  {
    var more := out + [e];
    if BroughtIn(t, out, h) {
      var i :| 0 <= i < |out| && Brings(t, out[i], h);
      assert more[i] == out[i];
    }
    if Brings(t, e, h) { assert more[|out|] == e; }
    if BroughtIn(t, more, h) {
      var i :| 0 <= i < |more| && Brings(t, more[i], h);
      assert i < |out| ==> out[i] == more[i];
    }
  }

  /** From `s` to `r` a header has been listed exactly if it may be and stands in `lines` or in a
      file opened on the way. */
  ghost predicate Lists(t: Tree, s: State, r: State, lines: seq<Line>, h: string)
  {
    && (NoneTwice(s.sysheaders) ==> NoneTwice(r.sysheaders))
    && (h in s.sysheaders ==> h in r.sysheaders)
    && (BroughtIn(t, s.out, h) ==> BroughtIn(t, r.out, h))
    && (h in r.sysheaders && h !in s.sysheaders ==> t.listable(h) && (System(h) in lines || BroughtIn(t, r.out, h)))
    && (t.listable(h) && System(h) in lines ==> h in r.sysheaders)
    && (t.listable(h) && BroughtIn(t, r.out, h) && !BroughtIn(t, s.out, h) ==> h in r.sysheaders)
  }

  lemma {:induction false} ExpandLists(t: Tree, s: State, x: string, pending: seq<string>, stage: string, h: string)
    requires Closed(t) && x in t.files
    ensures Lists(t, s, Expand(t, s, x, pending, stage), [], h)
    decreases t.files - Elements(pending), 1, 0
  {
    if !Skipped(s, x, pending) {
      var entered, lines := Enter(s, x, stage), t.lines(x, stage);
      var inside := ExpandLines(t, entered, lines, x, pending, stage);
      BroughtAppend(t, s.out, Begin(s.count + 1, stage, s.depth, x), h);
      LinesList(t, entered, lines, x, pending, stage, h);
      BroughtAppend(t, inside.out, End(x), h);
    }
  }

  lemma {:induction false} LinesList(t: Tree, s: State, lines: seq<Line>, x: string, pending: seq<string>,
      stage: string, h: string)
    requires Closed(t) && x in t.files && x !in pending && LinesIn(t, lines)
    ensures Lists(t, s, ExpandLines(t, s, lines, x, pending, stage), lines, h)
    decreases t.files - Elements(pending), 0, |lines|
  {
    if lines != [] {
      FirstLineFirst(t, s, lines, x, pending, stage);
      assert lines == [lines[0]] + lines[1..];
      LineLists(t, s, lines[0], x, pending, stage, h);
      LinesList(t, AfterLine(t, s, lines[0], x, pending, stage), lines[1..], x, pending, stage, h);
    }
  }

  lemma {:induction false} LineLists(t: Tree, s: State, line: Line, x: string, pending: seq<string>, stage: string,
      h: string)
    requires Closed(t) && x in t.files && x !in pending && (line.Include? ==> line.file in t.files)
    ensures Lists(t, s, AfterLine(t, s, line, x, pending, stage), [line], h)
    decreases t.files - Elements(pending), 0, 0
  {
    if line.Include? {
      assert x in t.files - Elements(pending) && x !in t.files - Elements(pending + [x]);
      ExpandLists(t, s.(depth := s.depth + 1), line.file, pending + [x], stage, h);
    } else if line.Text? {
      BroughtAppend(t, s.out, Copy(line.s), h);
    }
  }

  // ----- all top-level calls -----

  /** After any top-level calls: a header is listed exactly when it may be and an opened file has it,
      and once; every line of text was copied as often as it stands in the files opened; files are
      numbered in the order they are opened and indented by the files open around them. */
  lemma {:induction false} AddsUp(t: Tree, roots: seq<(string, string)>, h: string, text: string)
    requires Closed(t) && forall k :: 0 <= k < |roots| ==> roots[k].0 in t.files
    ensures var s := ExpandAll(t, START, roots);
      && (h in s.sysheaders <==> t.listable(h) && BroughtIn(t, s.out, h)) && NoneTwice(s.sysheaders)
      && Copies(s.out, text) == Owed(t, s.out, text)
      && Placed(s.out) && s.count == Begins(s.out) && s.depth == 0 && Begins(s.out) == Ends(s.out)
    decreases |roots|
  {
    if roots != [] {
      var last := |roots| - 1;
      AddsUp(t, roots[..last], h, text);
      var s := ExpandAll(t, START, roots[..last]);
      ExpandLists(t, s, roots[last].0, [], roots[last].1, h);
      ExpandBalances(t, s, roots[last].0, [], roots[last].1, text);
      ExpandTracks(t, s, roots[last].0, [], roots[last].1);
    }
  }
}
