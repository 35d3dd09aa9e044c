/** Whole runs of the record-packing pipeline: results, progress and termination. */
module PipelineRuns {
  import opened RecordPipeline
  import opened PipelineInvariant
  import opened PipelineSafety
  import opened Permutations
  import opened Sums
  import opened Wrappers

  ghost predicate Steps(c: Config, s: State, s': State)
  {
    Shaped(c, s) && exists t :: Enabled(c, s, t) && s' == Take(c, s, t)
  }

  /** Any interleaving of the processes, from the start. */
  ghost predicate Run(c: Config, r: seq<State>)
  {
    r != [] && r[0] == Init(c) && forall i :: 0 <= i < |r| - 1 ==> Steps(c, r[i], r[i + 1])
  }

  lemma {:induction false} RunKeepsInv(c: Config, r: seq<State>, i: nat)
    requires Valid(c) && Run(c, r) && i < |r|
    ensures Inv(c, r[i])
    decreases i
  {
    if i == 0 {
      InitInv(c);
    } else {
      RunKeepsInv(c, r, i - 1);
      assert Steps(c, r[i - 1], r[i - 1 + 1]);
      var t :| Enabled(c, r[i - 1], t) && r[i] == Take(c, r[i - 1], t);
      StepKeeps(c, r[i - 1], t);
    }
  }

  /** No queue holds more than it has room for. */
  ghost predicate WithinCapacity(c: Config, s: State)
  {
    (forall w :: 0 <= w < |s.queues| ==> |s.queues[w]| <= c.capIn) && |s.out| <= c.capOut
  }

  lemma {:induction false} RunWithinCapacity(c: Config, r: seq<State>, i: nat)
    requires Valid(c) && Run(c, r) && i < |r|
    ensures WithinCapacity(c, r[i])
    decreases i
  {
    if i > 0 {
      RunWithinCapacity(c, r, i - 1);
      assert Steps(c, r[i - 1], r[i - 1 + 1]);
    }
  }

  // ----- results -----

  predicate Encodes(c: Config, i: int)
    requires 0 <= i < |c.items|
  {
    c.encode(c.items[i]).Some?
  }

  /** What is written for item `i`: its number in the list file and its packed form. */
  ghost predicate RecordOf(c: Config, i: nat, record: Record)
  {
    i < |c.items| && c.encode(c.items[i]) == Some(record.1) && record.0 == c.items[i].id
  }

  /** The records are those of the first `count` items that can be packed, in list order. */
  ghost predicate InListOrder(c: Config, count: nat, records: seq<Record>, pos: seq<nat>)
    requires count <= |c.items|
  {
    && |pos| == |records| && Increasing(pos)
    && (forall k :: 0 <= k < |pos| ==> pos[k] < count && RecordOf(c, pos[k], records[k]))
    && forall i: nat :: i < count && Encodes(c, i) ==> i in pos
  }

  lemma InOrderSnoc(c: Config, last: nat, records: seq<Record>, pos: seq<nat>)
    requires last < |c.items| && InListOrder(c, last, records, pos)
    ensures var packed := c.encode(c.items[last]);
      if packed.Some? then InListOrder(c, last + 1, records + [(c.items[last].id, packed.value)], pos + [last])
      else InListOrder(c, last + 1, records, pos)
  {
    var longer := pos + [last];
    assert Increasing(longer);
    forall i: nat | i < last + 1 && Encodes(c, i)
      ensures i in longer
    {
      assert i < last ==> i in pos;
    }
  }

  ghost predicate Ordered(c: Config, count: nat, records: seq<Record>)
    requires count <= |c.items|
  {
    exists pos :: InListOrder(c, count, records, pos)
  }

  lemma OrderedSnoc(c: Config, last: nat, records: seq<Record>, count: nat, all: seq<Record>)
    requires last < |c.items| && Ordered(c, last, records) && count == last + 1
    requires all == records + Emit((c.encode(c.items[last]), c.items[last]))
    ensures Ordered(c, count, all)
  {
    var pos :| InListOrder(c, last, records, pos);
    InOrderSnoc(c, last, records, pos);
    assert records + [] == records;
  }

  lemma OrderedNone(c: Config)
    ensures Ordered(c, 0, [])
  {
    assert InListOrder(c, 0, [], []);
  }

  lemma {:induction false} PackedInOrder(c: Config, count: nat)
    requires count <= |c.items|
    ensures Ordered(c, count, Packed(c, count))
  {
    if count == 0 {
      OrderedNone(c);
    } else {
      PackedInOrder(c, count - 1);
      OrderedSnoc(c, count - 1, Packed(c, count - 1), count, Packed(c, count));
    }
  }

  /** At the end nothing is left over and every packable item has been written, in list order. */
  lemma FinalResult(c: Config, s: State)
    requires Inv(c, s) && Final(s)
    ensures s.writer.count == |c.items| && s.writer.buf == map[]
    ensures s.writer.written == Packed(c, |c.items|)
    ensures Ordered(c, |c.items|, s.writer.written)
  {
    PackedInOrder(c, |c.items|);
    assert Arrived(s.out) == {};
    forall i: nat | i < s.fed
      ensures Reached(s.writer, i)
    {
      var w := i % c.n;
      assert Placed(c, s, i) && MarkerOk(s.queues[w], s.workers[w], Closed(s, w));
      assert Carried(s, w) == {};
    }
    assert s.writer.count < s.fed ==> Reached(s.writer, s.writer.count);
    assert s.writer.buf.Keys == {};
  }

  /** Where an item is when it is on its way: only at the worker its number in the list, modulo
      the number of workers, picks. */
  lemma EachAtItsWorker(c: Config, r: seq<State>, w: nat, k: nat)
    requires Valid(c) && Run(c, r)
    ensures var s := r[|r| - 1];
      && |s.queues| == |s.workers| == c.n
      && (w < c.n && k < |s.queues[w]| && s.queues[w][k].Some? ==> s.queues[w][k].value % c.n == w)
      && (w < c.n && s.workers[w].Holding? ==> s.workers[w].i % c.n == w)
  {
    RunKeepsInv(c, r, |r| - 1);
    var s := r[|r| - 1];
    if w < c.n {
      if k < |s.queues[w]| && s.queues[w][k].Some? { assert s.queues[w][k].value in Carried(s, w); }
      if s.workers[w].Holding? { assert s.workers[w].i in Carried(s, w); }
    }
  }

  lemma {:induction false} PackedPrefix(c: Config, a: nat, b: nat)
    requires a <= b <= |c.items|
    ensures Packed(c, a) <= Packed(c, b)
    decreases b
  {
    if a < b { PackedPrefix(c, a, b - 1); }
  }

  // ----- progress -----

  lemma Progress(c: Config, s: State)
    requires Inv(c, s) && !Final(s)
    ensures exists t :: Enabled(c, s, t)
  {
    if s.out != [] {
      assert Enabled(c, s, Write);
    } else if w :| 0 <= w < c.n && s.workers[w].Holding? {
      assert Enabled(c, s, Deliver(w));
    } else if w :| 0 <= w < c.n && s.workers[w].Idle? && s.queues[w] != [] {
      assert Enabled(c, s, Fetch(w));
    } else {
      FeederMoves(c, s);
    }
  }

  /** With nothing to do for workers and writer, the feeder is not blocked. */
  lemma FeederMoves(c: Config, s: State)
    requires Inv(c, s) && !Final(s) && s.out == []
    requires forall w :: 0 <= w < c.n ==> s.workers[w].Stopped? || (s.workers[w].Idle? && s.queues[w] == [])
    ensures exists t :: Enabled(c, s, t)
  {
    forall w | 0 <= w < c.n
      ensures s.queues[w] == [] && (Closed(s, w) ==> s.workers[w].Stopped?)
    {
      assert MarkerOk(s.queues[w], s.workers[w], Closed(s, w));
    }
    match s.feeder {
      case Feeding => assert Enabled(c, s, if s.fed < |c.items| then Feed else EndOfList);
      case Closing(k) => assert Enabled(c, s, Close);
      case Joining => assert Enabled(c, s, Join);
      case Joined => assert Enabled(c, s, Finish);
      case Finished => assert false;
    }
  }

  // ----- termination -----

  function Length(q: seq<Option<nat>>): nat { |q| }

  function Load(w: Worker): nat { if w.Holding? then 1 else 0 }

  ghost function Lengths(qs: seq<seq<Option<nat>>>): nat { Total(qs, Length) }

  ghost function Busy(ws: seq<Worker>): nat { Total(ws, Load) }

  ghost function FeederWork(c: Config, f: Feeder): nat
  {
    match f
    case Feeding => 4 * c.n + 4
    case Closing(k) => if k <= c.n then 4 * (c.n - k) + 3 else 0
    case Joining => 3
    case Joined => 2
    case Finished => 0
  }

  /** Work left in the whole system: each message weighs more the farther it has to go. */
  ghost function Work(c: Config, s: State): nat
    requires Shaped(c, s)
  {
    4 * (|c.items| - s.fed) + FeederWork(c, s.feeder) + 3 * Lengths(s.queues) + 2 * Busy(s.workers) + |s.out|
  }

  lemma StepDecreases(c: Config, s: State, t: Step)
    requires Inv(c, s) && Enabled(c, s, t)
    ensures Shaped(c, Take(c, s, t)) && Work(c, Take(c, s, t)) < Work(c, s)
  {
    StepKeeps(c, s, t);
    match t {
      case Feed => TotalUpdate(s.queues, Length, s.fed % c.n, s.queues[s.fed % c.n] + [Some(s.fed)]);
      case Close => TotalUpdate(s.queues, Length, s.feeder.k, s.queues[s.feeder.k] + [None]);
      case Fetch(w) =>
        TotalUpdate(s.queues, Length, w, s.queues[w][1..]);
        TotalUpdate(s.workers, Load, w, if s.queues[w][0].Some? then Holding(s.queues[w][0].value) else Stopped);
      case Deliver(w) => TotalUpdate(s.workers, Load, w, Idle);
      case _ =>
    }
  }

  lemma {:induction false} RunLosesWork(c: Config, r: seq<State>, i: nat)
    requires Valid(c) && Run(c, r) && i < |r|
    ensures Shaped(c, Init(c)) && Shaped(c, r[i]) && Work(c, r[i]) + i <= Work(c, Init(c))
    decreases i
  {
    RunKeepsInv(c, r, i);
    if i == 0 {
      InitInv(c);
    } else {
      RunLosesWork(c, r, i - 1);
      RunKeepsInv(c, r, i - 1);
      assert Steps(c, r[i - 1], r[i - 1 + 1]);
      var t :| Enabled(c, r[i - 1], t) && r[i] == Take(c, r[i - 1], t);
      StepDecreases(c, r[i - 1], t);
    }
  }

  lemma InitialWork(c: Config)
    requires Valid(c)
    ensures Shaped(c, Init(c)) && Work(c, Init(c)) == 4 * (|c.items| + c.n) + 4
  {
    TotalWithin(Init(c).queues, Length, 0);
    TotalWithin(Init(c).workers, Load, 0);
  }

  /** Every interleaving: runs are bounded, all that has been written is a prefix of the
      packable items in list order, and a run that cannot be continued has written them all. */
  lemma EveryRun(c: Config, r: seq<State>)
    requires Valid(c) && Run(c, r)
    ensures |r| <= 4 * (|c.items| + c.n) + 5
    ensures var s := r[|r| - 1];
      s.writer.written <= Packed(c, |c.items|) && s.writer.count <= |c.items| &&
        Ordered(c, s.writer.count, s.writer.written)
    ensures var s := r[|r| - 1]; Shaped(c, s) && ((forall t :: !Enabled(c, s, t)) ==>
      Final(s) && s.writer.count == |c.items| && s.writer.buf == map[] && s.writer.written == Packed(c, |c.items|))
  {
    var s := r[|r| - 1];
    InitialWork(c);
    RunLosesWork(c, r, |r| - 1);
    RunKeepsInv(c, r, |r| - 1);
    PackedInOrder(c, s.writer.count);
    PackedPrefix(c, s.writer.count, |c.items|);
    if forall t :: !Enabled(c, s, t) {
      if !Final(s) { Progress(c, s); }
      FinalResult(c, s);
    }
  }

  // ----- the sequential fallback -----

  /** The single-process loop hands every result to the record file, which takes the length of
      it: an item that could not be packed raises an exception there and ends the loop. */
  method PackSequentially(c: Config) returns (record: seq<Record>, stop: nat)
    ensures stop <= |c.items| && record == Packed(c, stop) && Ordered(c, stop, record)
    ensures forall i :: 0 <= i < stop ==> Encodes(c, i)
    ensures stop < |c.items| ==> !Encodes(c, stop)
    ensures stop == |c.items| <==> forall i :: 0 <= i < |c.items| ==> Encodes(c, i)
  {
    record := [];
    var queue: seq<Result> := [];
    for i := 0 to |c.items|
      invariant queue == [] && record == Packed(c, i)
      invariant forall k :: 0 <= k < i ==> Encodes(c, k)
    {
      queue := queue + [Result(i, c.encode(c.items[i]), c.items[i])];
      if queue == [] { continue; }
      var s := queue[0].packed;
      queue := queue[1..];
      if s.None? {
        PackedInOrder(c, i);
        return record, i;
      }
      record := record + [(c.items[i].id, s.value)];
    }
    PackedInOrder(c, |c.items|);
    return record, |c.items|;
  }

  lemma {:induction false} PackedGrows(c: Config, a: nat, b: nat)
    requires a <= b <= |c.items|
    ensures |Packed(c, a)| <= |Packed(c, b)|
    ensures |Packed(c, a)| == |Packed(c, b)| <==> forall i :: a <= i < b ==> !Encodes(c, i)
    decreases b
  {
    if a < b {
      PackedGrows(c, a, b - 1);
      assert |Packed(c, b)| == |Packed(c, b - 1)| + if Encodes(c, b - 1) then 1 else 0;
    }
  }

  /** A loop that ended at `stop` has written what the parallel mode writes exactly when nothing
      from there on can be packed; in particular when it ended normally. */
  lemma SequentialAgrees(c: Config, stop: nat)
    requires stop <= |c.items|
    ensures Packed(c, stop) == Packed(c, |c.items|) <==> forall i :: stop <= i < |c.items| ==> !Encodes(c, i)
  {
    PackedPrefix(c, stop, |c.items|);
    PackedGrows(c, stop, |c.items|);
  }
}
