/** What flattening includes guarantees: each file at most once, nothing missing, and the same
    text as a preprocessor that marks files when it enters them. */
module IncludeOnce {
  import opened IncludeExpander

  // ----- invariants of a run -----

  /** No file that is not exempt is opened twice. */
  ghost predicate OpenedOnce(out: seq<Event>)
  {
    forall i, j :: 0 <= i < j < |out| && out[i].Begin? && out[j].Begin? && out[i].file == out[j].file ==>
      out[i].file in EXEMPT
  }

  ghost predicate Opened(out: seq<Event>, f: string)
  {
    exists i :: 0 <= i < |out| && out[i].Begin? && out[i].file == f
  }

  /** The files opened so far are exactly those finished or still being expanded. */
  ghost predicate Accounted(s: State, pending: seq<string>)
  {
    forall f :: Opened(s.out, f) <==> f in s.history || f in pending
  }

  /** One more event opens a file if it begins one. */
  lemma OpenedAppend(out: seq<Event>, e: Event, f: string)
    ensures Opened(out + [e], f) <==> Opened(out, f) || (e.Begin? && e.file == f)
  {
    var more := out + [e];
    if Opened(out, f) {
      var i :| 0 <= i < |out| && out[i].Begin? && out[i].file == f;
      assert more[i] == out[i];
    }
    if e.Begin? && e.file == f { assert more[|out|] == e; }
    if Opened(more, f) {
      var i :| 0 <= i < |more| && more[i].Begin? && more[i].file == f;
      assert i < |out| ==> out[i] == more[i];
    }
  }

  ghost predicate Numbered(s: State)
  {
    && (forall i :: 0 <= i < |s.out| && s.out[i].Begin? ==> 1 <= s.out[i].number <= s.count)
    && forall i, j :: 0 <= i < j < |s.out| && s.out[i].Begin? && s.out[j].Begin? ==> s.out[i].number < s.out[j].number
  }

  ghost predicate Sound(s: State, pending: seq<string>)
  {
    OpenedOnce(s.out) && Accounted(s, pending) && Numbered(s)
  }

  lemma {:induction false} ExpandSound(t: Tree, s: State, x: string, pending: seq<string>, stage: string)
    requires Closed(t) && x in t.files && Sound(s, pending)
    ensures Sound(Expand(t, s, x, pending, stage), pending)
    ensures s.history <= Expand(t, s, x, pending, stage).history
    ensures s.out <= Expand(t, s, x, pending, stage).out
    decreases t.files - Elements(pending), 1, 0
  {
    if !Skipped(s, x, pending) {
      var entered := Enter(s, x, stage);
      EnterSound(s, x, pending, stage);
      LinesSound(t, entered, t.lines(x, stage), x, pending, stage);
      var inside := ExpandLines(t, entered, t.lines(x, stage), x, pending, stage);
      LeaveSound(inside, x, pending);
    }
  }

  lemma EnterSound(s: State, x: string, pending: seq<string>, stage: string)
    requires Sound(s, pending) && !Skipped(s, x, pending)
    ensures Sound(Enter(s, x, stage), pending + [x])
  {
    var r := Enter(s, x, stage);
    forall i | 0 <= i < |s.out|
      ensures r.out[i] == s.out[i] && (s.out[i].Begin? ==> Opened(s.out, s.out[i].file))
    {
    }
    forall f
      ensures Opened(r.out, f) <==> Opened(s.out, f) || f == x
    {
      OpenedAppend(s.out, r.out[|s.out|], f);
    }
  }

  lemma LeaveSound(s: State, x: string, pending: seq<string>)
    requires Sound(s, pending + [x])
    ensures Sound(Leave(s, x), pending)
  {
    var r := Leave(s, x);
    forall i | 0 <= i < |s.out|
      ensures r.out[i] == s.out[i]
    {
    }
    forall f
      ensures Opened(r.out, f) <==> Opened(s.out, f)
    {
      OpenedAppend(s.out, r.out[|s.out|], f);
    }
  }

  lemma {:induction false} LinesSound(t: Tree, s: State, lines: seq<Line>, x: string, pending: seq<string>,
      stage: string)
    requires Closed(t) && x in t.files && x !in pending && LinesIn(t, lines) && Sound(s, pending + [x])
    ensures Sound(ExpandLines(t, s, lines, x, pending, stage), pending + [x])
    ensures s.history <= ExpandLines(t, s, lines, x, pending, stage).history
    ensures s.out <= ExpandLines(t, s, lines, x, pending, stage).out
    decreases t.files - Elements(pending), 0, |lines|
  {
    if lines != [] {
      LineSound(t, s, lines[0], x, pending, stage);
      LinesSound(t, AfterLine(t, s, lines[0], x, pending, stage), lines[1..], x, pending, stage);
    }
  }

  lemma {:induction false} LineSound(t: Tree, s: State, line: Line, x: string, pending: seq<string>, stage: string)
    requires Closed(t) && x in t.files && x !in pending && (line.Include? ==> line.file in t.files) &&
      Sound(s, pending + [x])
    ensures var r := AfterLine(t, s, line, x, pending, stage);
      Sound(r, pending + [x]) && s.history <= r.history && s.out <= r.out
    decreases t.files - Elements(pending), 0, 0
  {
    if line.Include? {
      assert x in t.files - Elements(pending) && x !in t.files - Elements(pending + [x]);
      IncludeSound(t, s, line.file, pending + [x], stage);
    } else if line.Text? {
      TextSound(s, line.s, pending + [x]);
    }
  }

  lemma {:induction false} IncludeSound(t: Tree, s: State, file: string, pending: seq<string>, stage: string)
    requires Closed(t) && file in t.files && Sound(s, pending)
    ensures var inner := Expand(t, s.(depth := s.depth + 1), file, pending, stage);
      Sound(inner.(depth := inner.depth - 1), pending) && s.history <= inner.history && s.out <= inner.out
    decreases t.files - Elements(pending), 2, 0
  {
    ExpandSound(t, s.(depth := s.depth + 1), file, pending, stage);
  }

  lemma TextSound(s: State, text: string, pending: seq<string>)
    requires Sound(s, pending)
    ensures Sound(s.(out := s.out + [Copy(text)]), pending)
  {
    forall f
      ensures Opened(s.out + [Copy(text)], f) <==> Opened(s.out, f)
    {
      OpenedAppend(s.out, Copy(text), f);
    }
  }

  /** The state after the first line of a file. */
  ghost function AfterLine(t: Tree, s: State, line: Line, x: string, pending: seq<string>, stage: string): (r: State)
    requires Closed(t) && x in t.files && x !in pending && (line.Include? ==> line.file in t.files)
  {
    match line
    case Text(text) => s.(out := s.out + [Copy(text)])
    case Dropped => s
    case System(h) => AddSystem(t, s, h)
    case Include(file) =>
      var inner := Expand(t, s.(depth := s.depth + 1), file, pending + [x], stage);
      inner.(depth := inner.depth - 1)
  }

  /** The other lines follow. */
  lemma FirstLineFirst(t: Tree, s: State, lines: seq<Line>, x: string, pending: seq<string>, stage: string)
    requires Closed(t) && x in t.files && x !in pending && LinesIn(t, lines) && lines != []
    ensures LinesIn(t, lines[1..]) && (lines[0].Include? ==> lines[0].file in t.files)
    ensures ExpandLines(t, s, lines, x, pending, stage) ==
      ExpandLines(t, AfterLine(t, s, lines[0], x, pending, stage), lines[1..], x, pending, stage)
  {
  }

  // ----- nothing is missing -----

  /** Everything the opened file includes is finished or still being expanded. */
  ghost predicate Served(t: Tree, e: Event, done: set<string>)
  {
    e.Begin? ==> forall k :: 0 <= k < |t.lines(e.file, e.stage)| && t.lines(e.file, e.stage)[k].Include? ==>
      t.lines(e.file, e.stage)[k].file in done
  }

  /** All opened files except those at the positions `open` have what they include. */
  ghost predicate AllServed(t: Tree, s: State, pending: seq<string>, open: set<int>)
  {
    forall i :: 0 <= i < |s.out| && i !in open ==> Served(t, s.out[i], s.history + Elements(pending))
  }

  lemma ServedMore(t: Tree, e: Event, done: set<string>, more: set<string>)
    requires Served(t, e, done) && done <= more
    ensures Served(t, e, more)
  {
  }

  lemma {:induction false} ExpandServes(t: Tree, s: State, x: string, pending: seq<string>, stage: string,
      open: set<int>)
    requires Closed(t) && x in t.files && Sound(s, pending) && AllServed(t, s, pending, open) &&
      forall i :: i in open ==> i < |s.out|
    ensures AllServed(t, Expand(t, s, x, pending, stage), pending, open)
    ensures x in Expand(t, s, x, pending, stage).history + Elements(pending)
    decreases t.files - Elements(pending), 1, 0
  {
    if !Skipped(s, x, pending) {
      var entered := Enter(s, x, stage);
      var here := |s.out|;
      EnterSound(s, x, pending, stage);
      assert AllServed(t, entered, pending + [x], open + {here}) by {
        forall i | 0 <= i < |entered.out| && i !in open + {here}
          ensures Served(t, entered.out[i], entered.history + Elements(pending + [x]))
        {
          ServedMore(t, s.out[i], s.history + Elements(pending), entered.history + Elements(pending + [x]));
        }
      }
      var lines := t.lines(x, stage);
      LinesServe(t, entered, lines, x, pending, stage, open + {here});
      LinesSound(t, entered, lines, x, pending, stage);
      var inside := ExpandLines(t, entered, lines, x, pending, stage);
      LeaveServes(t, inside, x, pending, stage, open, here);
    }
  }

  /** When the lines of `x` are through, the position where it was opened is served too. */
  lemma LeaveServes(t: Tree, s: State, x: string, pending: seq<string>, stage: string, open: set<int>, here: int)
    requires 0 <= here < |s.out| && s.out[here].Begin? && s.out[here].file == x && s.out[here].stage == stage
    requires AllServed(t, s, pending + [x], open + {here})
    requires forall k :: 0 <= k < |t.lines(x, stage)| && t.lines(x, stage)[k].Include? ==>
      t.lines(x, stage)[k].file in s.history + Elements(pending + [x])
    ensures AllServed(t, Leave(s, x), pending, open)
  {
    var r := Leave(s, x);
    assert s.history + Elements(pending + [x]) <= r.history + Elements(pending);
    forall i | 0 <= i < |r.out| && i !in open
      ensures Served(t, r.out[i], r.history + Elements(pending))
    {
      if i < |s.out| {
        assert r.out[i] == s.out[i];
        if i != here { ServedMore(t, s.out[i], s.history + Elements(pending + [x]), r.history + Elements(pending)); }
      }
    }
  }

  lemma {:induction false} LinesServe(t: Tree, s: State, lines: seq<Line>, x: string, pending: seq<string>,
      stage: string, open: set<int>)
    requires Closed(t) && x in t.files && x !in pending && LinesIn(t, lines) && Sound(s, pending + [x])
    requires AllServed(t, s, pending + [x], open) && forall i :: i in open ==> i < |s.out|
    ensures var r := ExpandLines(t, s, lines, x, pending, stage);
      && AllServed(t, r, pending + [x], open)
      && forall k :: 0 <= k < |lines| && lines[k].Include? ==> lines[k].file in r.history + Elements(pending + [x])
    decreases t.files - Elements(pending), 0, |lines|
  {
    if lines != [] {
      var s' := AfterLine(t, s, lines[0], x, pending, stage);
      var rest := lines[1..];
      LineSound(t, s, lines[0], x, pending, stage);
      LineServes(t, s, lines[0], x, pending, stage, open);
      LinesServe(t, s', rest, x, pending, stage, open);
      LinesSound(t, s', rest, x, pending, stage);
      var r := ExpandLines(t, s, lines, x, pending, stage);
      forall k | 0 <= k < |lines| && lines[k].Include?
        ensures lines[k].file in r.history + Elements(pending + [x])
      {
        if k > 0 { assert rest[k - 1] == lines[k]; }
      }
    }
  }

  lemma {:induction false} LineServes(t: Tree, s: State, line: Line, x: string, pending: seq<string>, stage: string,
      open: set<int>)
    requires Closed(t) && x in t.files && x !in pending && (line.Include? ==> line.file in t.files) &&
      Sound(s, pending + [x])
    requires AllServed(t, s, pending + [x], open) && forall i :: i in open ==> i < |s.out|
    ensures var r := AfterLine(t, s, line, x, pending, stage);
      && AllServed(t, r, pending + [x], open)
      && (line.Include? ==> line.file in r.history + Elements(pending + [x]))
    decreases t.files - Elements(pending), 0, 0
  {
    if line.Include? {
      assert x in t.files - Elements(pending) && x !in t.files - Elements(pending + [x]);
      IncludeServes(t, s, line.file, pending + [x], stage, open);
    } else if line.Text? {
      TextServes(t, s, line.s, pending + [x], open);
    }
  }

  lemma {:induction false} IncludeServes(t: Tree, s: State, file: string, pending: seq<string>, stage: string,
      open: set<int>)
    requires Closed(t) && file in t.files && Sound(s, pending)
    requires AllServed(t, s, pending, open) && forall i :: i in open ==> i < |s.out|
    ensures var inner := Expand(t, s.(depth := s.depth + 1), file, pending, stage);
      && AllServed(t, inner.(depth := inner.depth - 1), pending, open)
      && file in inner.history + Elements(pending)
    decreases t.files - Elements(pending), 2, 0
  {
    ExpandServes(t, s.(depth := s.depth + 1), file, pending, stage, open);
  }

  lemma TextServes(t: Tree, s: State, text: string, pending: seq<string>, open: set<int>)
    requires AllServed(t, s, pending, open)
    ensures AllServed(t, s.(out := s.out + [Copy(text)]), pending, open)
  {
    var r := s.(out := s.out + [Copy(text)]);
    forall i | 0 <= i < |r.out| && i !in open
      ensures Served(t, r.out[i], r.history + Elements(pending))
    {
      assert i < |s.out| ==> r.out[i] == s.out[i];
    }
  }

  // ----- a preprocessor that marks files on entry -----

  datatype Mark = Open(file: string) | Line(s: string) | Shut(file: string)

  /** Plain include-once: a file already entered is skipped; exempt files are only kept from
      including themselves. */
  ghost function Once(t: Tree, seen: set<string>, x: string, active: seq<string>, stage: string)
    : (r: (seq<Mark>, set<string>))
    requires Closed(t) && x in t.files
    decreases t.files - Elements(active), 1, 0
  {
    if (x in seen && x !in EXEMPT) || x in active then ([], seen)
    else
      var (body, seen') := OnceLines(t, seen + {x}, t.lines(x, stage), x, active, stage);
      ([Open(x)] + body + [Shut(x)], seen')
  }

  ghost function OnceLines(t: Tree, seen: set<string>, lines: seq<IncludeExpander.Line>, x: string,
      active: seq<string>, stage: string)
    : (r: (seq<Mark>, set<string>))
    requires Closed(t) && x in t.files && x !in active && LinesIn(t, lines)
    decreases t.files - Elements(active), 0, |lines|
  {
    if lines == [] then ([], seen)
    else
      var (first, seen') := match lines[0] {
        case Text(text) => ([Line(text)], seen)
        case Include(file) =>
          assert x in t.files - Elements(active) && x !in t.files - Elements(active + [x]);
          Once(t, seen, file, active + [x], stage)
        case _ => ([], seen)
      };
      var (rest, seen'') := OnceLines(t, seen', lines[1..], x, active, stage);
      (first + rest, seen'')
  }

  function MarkOf(e: Event): Mark
  {
    match e
    case Begin(_, _, _, file) => Open(file)
    case Copy(s) => Line(s)
    case End(file) => Shut(file)
  }

  /** The output without numbering and indentation. */
  ghost function Marks(out: seq<Event>): (m: seq<Mark>)
    ensures |m| == |out| && forall i :: 0 <= i < |out| ==> m[i] == MarkOf(out[i])
  {
    seq(|out|, i requires 0 <= i < |out| => MarkOf(out[i]))
  }

  lemma MarksAppend(out: seq<Event>, e: Event)
    ensures Marks(out + [e]) == Marks(out) + [MarkOf(e)]
  {
  }

  /** Marking on exit with a list of pending files is the same as marking on entry. */
  lemma {:induction false} ExpandIsOnce(t: Tree, s: State, x: string, pending: seq<string>, stage: string)
    requires Closed(t) && x in t.files
    ensures var r := Expand(t, s, x, pending, stage);
      var (text, seen) := Once(t, s.history + Elements(pending), x, pending, stage);
      Marks(r.out) == Marks(s.out) + text && r.history + Elements(pending) == seen
    decreases t.files - Elements(pending), 1, 0
  {
    var r := Expand(t, s, x, pending, stage);
    if Skipped(s, x, pending) {
      assert Marks(s.out) + [] == Marks(s.out);
    } else {
      var entered, lines := Enter(s, x, stage), t.lines(x, stage);
      var inside := ExpandLines(t, entered, lines, x, pending, stage);
      LinesAreOnce(t, entered, lines, x, pending, stage);
      assert entered.history + Elements(pending + [x]) == (s.history + Elements(pending)) + {x};
      assert inside.history + Elements(pending + [x]) == r.history + Elements(pending);
      var (body, seen) := OnceLines(t, (s.history + Elements(pending)) + {x}, lines, x, pending, stage);
      MarksAppend(s.out, Begin(s.count + 1, stage, s.depth, x));
      MarksAppend(inside.out, End(x));
      assert (Marks(s.out) + [Open(x)]) + body + [Shut(x)] == Marks(s.out) + ([Open(x)] + body + [Shut(x)]);
    }
  }

  lemma {:induction false} LinesAreOnce(t: Tree, s: State, lines: seq<IncludeExpander.Line>, x: string,
      pending: seq<string>, stage: string)
    requires Closed(t) && x in t.files && x !in pending && LinesIn(t, lines)
    ensures var r := ExpandLines(t, s, lines, x, pending, stage);
      var (text, seen) := OnceLines(t, s.history + Elements(pending + [x]), lines, x, pending, stage);
      Marks(r.out) == Marks(s.out) + text && r.history + Elements(pending + [x]) == seen
    decreases t.files - Elements(pending), 0, |lines|
  {
    if lines == [] {
      assert Marks(s.out) + [] == Marks(s.out);
    } else {
      var s' := AfterLine(t, s, lines[0], x, pending, stage);
      var seen := s.history + Elements(pending + [x]);
      var (first, seen') := FirstLine(t, seen, lines[0], x, pending, stage);
      LineIsOnce(t, s, lines[0], x, pending, stage);
      LinesAreOnce(t, s', lines[1..], x, pending, stage);
      var (rest, seen'') := OnceLines(t, seen', lines[1..], x, pending, stage);
      assert Marks(s.out) + first + rest == Marks(s.out) + (first + rest);
    }
  }

  ghost function FirstLine(t: Tree, seen: set<string>, line: IncludeExpander.Line, x: string, active: seq<string>,
      stage: string)
    : (seq<Mark>, set<string>)
    requires Closed(t) && x in t.files && x !in active && (line.Include? ==> line.file in t.files)
  {
    match line
    case Text(text) => ([Line(text)], seen)
    case Include(file) => Once(t, seen, file, active + [x], stage)
    case _ => ([], seen)
  }

  lemma {:induction false} LineIsOnce(t: Tree, s: State, line: IncludeExpander.Line, x: string, pending: seq<string>,
      stage: string)
    requires Closed(t) && x in t.files && x !in pending && (line.Include? ==> line.file in t.files)
    ensures var r := AfterLine(t, s, line, x, pending, stage);
      var (text, seen) := FirstLine(t, s.history + Elements(pending + [x]), line, x, pending, stage);
      Marks(r.out) == Marks(s.out) + text && r.history + Elements(pending + [x]) == seen
    decreases t.files - Elements(pending), 0, 0
  {
    match line {
      case Text(text) => MarksAppend(s.out, Copy(text));
      case Include(file) =>
        assert x in t.files - Elements(pending) && x !in t.files - Elements(pending + [x]);
        ExpandIsOnce(t, s.(depth := s.depth + 1), file, pending + [x], stage);
      case _ => assert Marks(s.out) + [] == Marks(s.out);
    }
  }

  // ----- all top-level calls -----

  /** The script's top-level calls, one after the other. */
  ghost function ExpandAll(t: Tree, s: State, roots: seq<(string, string)>): State
    requires Closed(t) && forall k :: 0 <= k < |roots| ==> roots[k].0 in t.files
  {
    if roots == [] then s
    else
      var last := |roots| - 1;
      Expand(t, ExpandAll(t, s, roots[..last]), roots[last].0, [], roots[last].1)
  }

  ghost function OnceAll(t: Tree, roots: seq<(string, string)>): (seq<Mark>, set<string>)
    requires Closed(t) && forall k :: 0 <= k < |roots| ==> roots[k].0 in t.files
  {
    if roots == [] then ([], {})
    else
      var last := |roots| - 1;
      var (text, seen) := OnceAll(t, roots[..last]);
      var (more, seen') := Once(t, seen, roots[last].0, [], roots[last].1);
      (text + more, seen')
  }

  const START := State({}, [], [], 0, 0)

  lemma {:induction false} AllSound(t: Tree, roots: seq<(string, string)>)
    requires Closed(t) && forall k :: 0 <= k < |roots| ==> roots[k].0 in t.files
    ensures Sound(ExpandAll(t, START, roots), [])
    decreases |roots|
  {
    if roots != [] {
      var last := |roots| - 1;
      AllSound(t, roots[..last]);
      ExpandSound(t, ExpandAll(t, START, roots[..last]), roots[last].0, [], roots[last].1);
    }
  }

  lemma {:induction false} RootsServed(t: Tree, roots: seq<(string, string)>)
    requires Closed(t) && forall k :: 0 <= k < |roots| ==> roots[k].0 in t.files
    ensures AllServed(t, ExpandAll(t, START, roots), [], {})
    ensures forall k :: 0 <= k < |roots| ==> roots[k].0 in ExpandAll(t, START, roots).history
    decreases |roots|
  {
    if roots != [] {
      var last, before := |roots| - 1, roots[..|roots| - 1];
      RootsServed(t, before);
      AllSound(t, before);
      ExpandServes(t, ExpandAll(t, START, before), roots[last].0, [], roots[last].1, {});
      ExpandSound(t, ExpandAll(t, START, before), roots[last].0, [], roots[last].1);
      forall k | 0 <= k < last
        ensures roots[k].0 in ExpandAll(t, START, before).history
      {
        assert before[k] == roots[k];
      }
    }
  }

  lemma {:induction false} AllOnce(t: Tree, roots: seq<(string, string)>)
    requires Closed(t) && forall k :: 0 <= k < |roots| ==> roots[k].0 in t.files
    ensures var s := ExpandAll(t, START, roots); (Marks(s.out), s.history) == OnceAll(t, roots)
    decreases |roots|
  {
    if roots == [] {
      assert Marks(START.out) == [];
    } else {
      var last := |roots| - 1;
      AllOnce(t, roots[..last]);
      var s := ExpandAll(t, START, roots[..last]);
      ExpandIsOnce(t, s, roots[last].0, [], roots[last].1);
      var r := ExpandAll(t, START, roots);
      assert s.history + Elements([]) == s.history && r.history + Elements([]) == r.history;
    }
  }

  /** For any include relation and any top-level calls: files are opened at most once unless
      exempt, numbered in order, everything an opened file includes has been expanded, all
      roots are there, and the text is that of the include-once preprocessor. */
  lemma Flattened(t: Tree, roots: seq<(string, string)>)
    requires Closed(t) && forall k :: 0 <= k < |roots| ==> roots[k].0 in t.files
    ensures var s := ExpandAll(t, START, roots);
      && Sound(s, []) && AllServed(t, s, [], {})
      && (forall k :: 0 <= k < |roots| ==> roots[k].0 in s.history)
      && (Marks(s.out), s.history) == OnceAll(t, roots)
  {
    AllSound(t, roots);
    RootsServed(t, roots);
    AllOnce(t, roots);
  }
}
