/** Flattening a tree of includes into one file (`expand`, amalgamation/amalgamation.py). */
module IncludeExpander {
  /** What becomes of one line, once include paths are looked up: copied, dropped, replaced
      by a file, or kept as a system header. */
  datatype Line = Text(s: string) | Dropped | Include(file: string) | System(header: string)

  datatype Event = Begin(number: nat, stage: string, depth: nat, file: string) | Copy(s: string) | End(file: string)

  /** The files, their lines per stage, and which unresolved headers may be listed. */
  datatype Tree = Tree(files: set<string>, lines: (string, string) -> seq<Line>, listable: string -> bool)

  /** Files that may be included more than once. */
  const EXEMPT := {"mshadow/mshadow/expr_scalar-inl.h"}

  ghost predicate Closed(t: Tree)
  {
    forall f, stage, k :: f in t.files && 0 <= k < |t.lines(f, stage)| && t.lines(f, stage)[k].Include? ==>
      t.lines(f, stage)[k].file in t.files
  }

  ghost predicate LinesIn(t: Tree, lines: seq<Line>)
  {
    forall k :: 0 <= k < |lines| && lines[k].Include? ==> lines[k].file in t.files
  }

  datatype State = State(history: set<string>, sysheaders: seq<string>, out: seq<Event>, depth: nat, count: nat)

  function Elements(s: seq<string>): set<string> { set x | x in s }

  function AddSystem(t: Tree, s: State, h: string): State
  {
    if t.listable(h) && h !in s.sysheaders then s.(sysheaders := s.sysheaders + [h]) else s
  }

  /** A file is skipped if it is done (and not exempt) or still being expanded. */
  predicate Skipped(s: State, x: string, pending: seq<string>)
  {
    (x in s.history && x !in EXEMPT) || x in pending
  }

  function Enter(s: State, x: string, stage: string): State
  {
    s.(count := s.count + 1, out := s.out + [Begin(s.count + 1, stage, s.depth, x)])
  }

  function Leave(s: State, x: string): State
  {
    s.(out := s.out + [End(x)], history := s.history + {x})
  }

  ghost function Expand(t: Tree, s: State, x: string, pending: seq<string>, stage: string): (r: State)
    requires Closed(t) && x in t.files
    ensures r.depth == s.depth
    decreases t.files - Elements(pending), 1, 0
  {
    if Skipped(s, x, pending) then s
    else Leave(ExpandLines(t, Enter(s, x, stage), t.lines(x, stage), x, pending, stage), x)
  }

  ghost function ExpandLines(t: Tree, s: State, lines: seq<Line>, x: string, pending: seq<string>, stage: string)
    : (r: State)
    requires Closed(t) && x in t.files && x !in pending && LinesIn(t, lines)
    ensures r.depth == s.depth
    decreases t.files - Elements(pending), 0, |lines|
  {
    if lines == [] then s
    else
      var s' := match lines[0] {
        case Text(text) => s.(out := s.out + [Copy(text)])
        case Dropped => s
        case System(h) => AddSystem(t, s, h)
        case Include(file) =>
          assert x in t.files - Elements(pending) && x !in t.files - Elements(pending + [x]);
          var inner := Expand(t, s.(depth := s.depth + 1), file, pending + [x], stage);
          inner.(depth := inner.depth - 1)
      };
      ExpandLines(t, s', lines[1..], x, pending, stage)
  }

  // ----- as the script runs it -----

  class Amalgamation {
    var history: set<string>
    var sysheaders: seq<string>
    var out: seq<Event>
    var treeDepth: nat
    var fileCount: nat

    ghost function Now(): State
      reads this
    {
      State(history, sysheaders, out, treeDepth, fileCount)
    }

    constructor ()
      ensures Now() == State({}, [], [], 0, 0)
    {
      history, sysheaders, out, treeDepth, fileCount := {}, [], [], 0, 0;
    }

    method ExpandFile(t: Tree, x: string, pending: seq<string>, stage: string)
      requires Closed(t) && x in t.files
      modifies this
      ensures Now() == Expand(t, old(Now()), x, pending, stage)
      decreases t.files - Elements(pending)
    {
      if x in history && x !in EXEMPT {
        return;
      }
      if x in pending {
        return;
      }
      fileCount := fileCount + 1;
      out := out + [Begin(fileCount, stage, treeDepth, x)];
      ghost var entered := Now();
      var lines := t.lines(x, stage);
      assert LinesIn(t, lines);
      assert x in t.files - Elements(pending) && x !in t.files - Elements(pending + [x]);
      var k := 0;
      while k < |lines|
        invariant 0 <= k <= |lines| && LinesIn(t, lines[k..])
        invariant ExpandLines(t, Now(), lines[k..], x, pending, stage) ==
          ExpandLines(t, entered, lines, x, pending, stage)
      {
        assert lines[k..][0] == lines[k] && lines[k..][1..] == lines[k + 1..];
        match lines[k] {
          case Text(text) => out := out + [Copy(text)];
          case Dropped =>
          case System(h) =>
            if t.listable(h) && h !in sysheaders {
              sysheaders := sysheaders + [h];
            }
          case Include(file) =>
            treeDepth := treeDepth + 1;
            ExpandFile(t, file, pending + [x], stage);
            treeDepth := treeDepth - 1;
        }
        k := k + 1;
      }
      out := out + [End(x)];
      history := history + {x};
    }
  }
}
