/** The record-packing pipeline of tools/im2rec.py: a feeder, `n` encoding workers with one
    bounded queue each, and a writer that puts results back into list order. */
module RecordPipeline {
  import opened Permutations
  import opened Wrappers

  datatype Item = Item(id: int, path: string, labels: seq<real>)
  type Record = (int, string)

  /** Results of the encoder are a parameter; `None` is an item that could not be packed. */
  datatype Config = Config(items: seq<Item>, n: nat, capIn: nat, capOut: nat, encode: Item -> Option<string>)

  predicate Valid(c: Config) { c.n > 0 && c.capIn > 0 && c.capOut > 0 }

  // ----- the writer -----

  datatype Result = Result(i: nat, packed: Option<string>, item: Item)

  datatype Writer = Writer(count: nat, buf: map<nat, (Option<string>, Item)>, written: seq<Record>, more: bool)

  function Emit(entry: (Option<string>, Item)): seq<Record>
  {
    if entry.0.Some? then [(entry.1.id, entry.0.value)] else []
  }

  /** The inner loop: everything that is next in line leaves the buffer. */
  function Drain(w: Writer): (r: Writer)
    ensures r.count !in r.buf && r.more == w.more
    decreases |w.buf|
  {
    if w.count in w.buf then
      assert |w.buf.Keys - {w.count}| < |w.buf.Keys|;
      assert (w.buf - {w.count}).Keys == w.buf.Keys - {w.count};
      Drain(Writer(w.count + 1, w.buf - {w.count}, w.written + Emit(w.buf[w.count]), w.more))
    else w
  }

  /** One round of the outer loop; `None` is the end marker. */
  function Receive(w: Writer, m: Option<Result>): (r: Writer)
    ensures r.count !in r.buf
  {
    match m
    case Some(Result(i, packed, item)) => Drain(w.(buf := w.buf[i := (packed, item)]))
    case None => Drain(w.(more := false))
  }

  /** The records are the packable entries at the positions from `lo` to below `hi`, in order,
      each under the number of its item. */
  ghost predicate Lists(buf: map<nat, (Option<string>, Item)>, lo: nat, hi: nat, records: seq<Record>, pos: seq<nat>)
  {
    && |pos| == |records| && Increasing(pos)
    && (forall i: nat :: i in pos <==> lo <= i < hi && i in buf && buf[i].0.Some?)
    && forall k :: 0 <= k < |pos| ==>
      pos[k] in buf && buf[pos[k]].0.Some? && records[k] == (buf[pos[k]].1.id, buf[pos[k]].0.value)
  }

  lemma ListsCons(buf: map<nat, (Option<string>, Item)>, lo: nat, hi: nat, records: seq<Record>, pos: seq<nat>)
    requires lo in buf && lo < hi && Lists(buf - {lo}, lo + 1, hi, records, pos)
    ensures buf[lo].0.Some? ==> Lists(buf, lo, hi, [(buf[lo].1.id, buf[lo].0.value)] + records, [lo] + pos)
    ensures buf[lo].0.None? ==> Lists(buf, lo, hi, records, pos)
  {
    forall k | 0 <= k < |pos|
      ensures lo < pos[k]
    {
      assert pos[k] in pos;
    }
    var longer := [lo] + pos;
    assert Increasing(longer);
    forall i: nat
      ensures i in longer <==> i == lo || i in pos
    {
    }
  }

  /** One turn of the inner loop. */
  function Emptied(w: Writer): Writer
    requires w.count in w.buf
  {
    Writer(w.count + 1, w.buf - {w.count}, w.written + Emit(w.buf[w.count]), w.more)
  }

  lemma DrainUnfolds(w: Writer)
    requires w.count in w.buf
    ensures Drain(w) == Drain(Emptied(w)) && |Emptied(w).buf| < |w.buf|
  {
    assert |w.buf.Keys - {w.count}| < |w.buf.Keys|;
    assert Emptied(w).buf.Keys == w.buf.Keys - {w.count};
  }

  /** Everything in line from `count` on leaves the buffer, up to the first gap. */
  ghost predicate UpToGap(w: Writer, r: Writer)
  {
    && w.count <= r.count && r.count !in w.buf && (forall i :: w.count <= i < r.count ==> i in w.buf)
    && (forall i :: i in r.buf <==> i in w.buf && !(w.count <= i < r.count))
    && forall i :: i in r.buf ==> r.buf[i] == w.buf[i]
  }

  lemma GapStep(w: Writer, r: Writer)
    requires w.count in w.buf && UpToGap(Emptied(w), r)
    ensures UpToGap(w, r)
  {
    var next := Emptied(w);
    forall i | w.count <= i < r.count
      ensures i in w.buf
    {
      assert i == w.count || i in next.buf;
    }
    assert forall i :: i in next.buf <==> i in w.buf && i != w.count;
    assert r.count in w.buf ==> r.count in next.buf;
  }

  lemma {:induction false} DrainsUpToGap(w: Writer)
    ensures UpToGap(w, Drain(w))
    decreases |w.buf|
  {
    if w.count in w.buf {
      DrainUnfolds(w);
      DrainsUpToGap(Emptied(w));
      GapStep(w, Drain(w));
    }
  }

  /** What has been written in between. */
  ghost predicate Writes(w: Writer, r: Writer)
  {
    w.written <= r.written && exists pos :: Lists(w.buf, w.count, r.count, r.written[|w.written|..], pos)
  }

  lemma WritesStep(w: Writer, r: Writer, pos: seq<nat>)
    requires w.count in w.buf && w.count < r.count && Emptied(w).written <= r.written
    requires Lists(Emptied(w).buf, w.count + 1, r.count, r.written[|Emptied(w).written|..], pos)
    ensures Writes(w, r)
  {
    var rest := r.written[|Emptied(w).written|..];
    ListsCons(w.buf, w.count, r.count, rest, pos);
    assert r.written[|w.written|..] == Emit(w.buf[w.count]) + rest;
    assert Lists(w.buf, w.count, r.count, r.written[|w.written|..],
      if w.buf[w.count].0.Some? then [w.count] + pos else pos);
  }

  lemma {:induction false} DrainWrites(w: Writer)
    ensures Writes(w, Drain(w))
    decreases |w.buf|
  {
    var r := Drain(w);
    if w.count in w.buf {
      DrainUnfolds(w);
      DrainWrites(Emptied(w));
      DrainsUpToGap(Emptied(w));
      var pos :| Lists(Emptied(w).buf, w.count + 1, r.count, r.written[|Emptied(w).written|..], pos);
      WritesStep(w, r, pos);
    } else {
      assert Lists(w.buf, w.count, r.count, r.written[|w.written|..], []);
    }
  }

  /** What one message does to the writer. */
  lemma ReceiveMeans(w: Writer, m: Option<Result>)
    ensures var r := Receive(w, m);
      var filled := if m.Some? then w.(buf := w.buf[m.value.i := (m.value.packed, m.value.item)]) else w;
      r.more == (w.more && m.Some?) && UpToGap(filled, r) && Writes(filled, r)
  {
    var filled := if m.Some? then w.(buf := w.buf[m.value.i := (m.value.packed, m.value.item)]) else w.(more := false);
    DrainsUpToGap(filled);
    DrainWrites(filled);
  }

  /** `write_worker` with its local variables as fields. */
  class WriteWorker {
    var count: nat
    var buf: map<nat, (Option<string>, Item)>
    var written: seq<Record>
    var more: bool

    ghost function State(): Writer
      reads this
    {
      Writer(count, buf, written, more)
    }

    constructor ()
      ensures State() == Writer(0, map[], [], true)
    {
      count, buf, written, more := 0, map[], [], true;
    }

    method Take(deq: Option<Result>)
      modifies this
      ensures State() == Receive(old(State()), deq)
    {
      match deq {
        case Some(Result(i, s, item)) => buf := buf[i := (s, item)];
        case None => more := false;
      }
      ghost var start := State();
      while count in buf
        invariant Drain(State()) == Drain(start)
        decreases |buf|
      {
        assert |buf.Keys - {count}| < |buf.Keys|;
        assert (buf - {count}).Keys == buf.Keys - {count};
        var (s, item) := buf[count];
        buf := buf - {count};
        if s.Some? {
          written := written + [(item.id, s.value)];
        } else {
          assert written + Emit((s, item)) == written;
        }
        count := count + 1;
      }
    }
  }

  // ----- the whole system -----

  datatype Worker = Idle | Holding(i: nat) | Stopped

  /** The feeder: list items, then one end marker per worker, then waiting for the workers,
      then the writer's end marker. */
  datatype Feeder = Feeding | Closing(k: nat) | Joining | Joined | Finished

  datatype State = State(
    fed: nat, feeder: Feeder, queues: seq<seq<Option<nat>>>, workers: seq<Worker>, out: seq<Option<Result>>,
      writer: Writer)

  ghost function Init(c: Config): State
  {
    State(0, Feeding, seq(c.n, _ => []), seq(c.n, _ => Idle), [], Writer(0, map[], [], true))
  }

  function ResultOf(c: Config, i: nat): Result
    requires i < |c.items|
  {
    Result(i, c.encode(c.items[i]), c.items[i])
  }

  datatype Step = Feed | EndOfList | Close | Join | Finish | Fetch(w: nat) | Deliver(w: nat) | Write

  ghost predicate Shaped(c: Config, s: State)
  {
    Valid(c) && |s.queues| == |s.workers| == c.n && s.fed <= |c.items|
    && forall w :: 0 <= w < c.n && s.workers[w].Holding? ==> s.workers[w].i < |c.items|
  }

  ghost predicate Enabled(c: Config, s: State, t: Step)
    requires Shaped(c, s)
  {
    match t
    case Feed => s.feeder.Feeding? && s.fed < |c.items| && |s.queues[s.fed % c.n]| < c.capIn
    case EndOfList => s.feeder.Feeding? && s.fed == |c.items|
    case Close => s.feeder.Closing? && s.feeder.k < c.n && |s.queues[s.feeder.k]| < c.capIn
    case Join => s.feeder.Joining? && forall w :: 0 <= w < c.n ==> s.workers[w].Stopped?
    case Finish => s.feeder.Joined? && |s.out| < c.capOut
    case Fetch(w) => w < c.n && s.workers[w].Idle? && s.queues[w] != []
    case Deliver(w) => w < c.n && s.workers[w].Holding? && |s.out| < c.capOut
    case Write => s.writer.more && s.out != []
  }

  ghost function Take(c: Config, s: State, t: Step): (r: State)
    requires Shaped(c, s) && Enabled(c, s, t)
  {
    match t
    case Feed =>
      var w := s.fed % c.n;
      s.(fed := s.fed + 1, queues := s.queues[w := s.queues[w] + [Some(s.fed)]])
    case EndOfList => s.(feeder := Closing(0))
    case Close =>
      var k := s.feeder.k;
      s.(feeder := if k + 1 == c.n then Joining else Closing(k + 1), queues := s.queues[k := s.queues[k] + [None]])
    case Join => s.(feeder := Joined)
    case Finish => s.(feeder := Finished, out := s.out + [None])
    case Fetch(w) =>
      var m := s.queues[w][0];
      s.(queues := s.queues[w := s.queues[w][1..]],
        workers := s.workers[w := if m.Some? then Holding(m.value) else Stopped])
    case Deliver(w) =>
      s.(workers := s.workers[w := Idle], out := s.out + [Some(ResultOf(c, s.workers[w].i))])
    case Write => s.(out := s.out[1..], writer := Receive(s.writer, s.out[0]))
  }

  ghost predicate Final(s: State)
  {
    s.feeder.Finished? && !s.writer.more && s.out == []
  }
}
