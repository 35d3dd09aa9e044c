/** The pipeline invariant holds in every reachable state, and what it says at the end. */
module PipelineSafety {
  import opened RecordPipeline
  import opened Wrappers
  import opened PipelineInvariant

  lemma InitInv(c: Config)
    requires Valid(c)
    ensures Inv(c, Init(c))
  {
    var s := Init(c);
    forall w | 0 <= w < c.n
      ensures Carried(s, w) == {}
    {
      assert Queued(s.queues[w]) == {};
    }
    assert Arrived(s.out) == {};
  }

  /** If no position changes its carrier or its status, conservation is kept. */
  lemma SamePlaces(c: Config, s: State, s': State)
    requires Shaped(c, s) && Shaped(c, s') && Conserved(c, s) && s'.fed == s.fed
    requires forall w :: 0 <= w < c.n ==> Carried(s', w) == Carried(s, w) && OneEach(s', w)
    requires forall i: nat :: Emitted(s', i) <==> Emitted(s, i)
    ensures Conserved(c, s')
  {
    forall w, v: nat | 0 <= w < c.n && v in Carried(s', w)
      ensures Home(c, s', w, v)
    {
      assert v in Carried(s, w) && Home(c, s, w, v);
    }
    forall i: nat | i < s.fed
      ensures Placed(c, s', i)
    {
      assert Placed(c, s, i);
    }
  }

  lemma SameMarkers(c: Config, s: State, s': State)
    requires Shaped(c, s) && Shaped(c, s') && MarkersOk(c, s)
    requires s'.queues == s.queues && s'.workers == s.workers && s'.fed == s.fed
    requires forall w :: 0 <= w < c.n ==> Closed(s', w) == Closed(s, w)
    requires !s'.feeder.Feeding? ==> s'.fed == |c.items|
    requires s'.feeder.Closing? ==> s'.feeder.k < c.n
    requires s'.feeder.Joined? || s'.feeder.Finished? ==> AllStopped(s')
    ensures MarkersOk(c, s')
  {
    forall w | 0 <= w < c.n
      ensures MarkerOk(s'.queues[w], s'.workers[w], Closed(s', w))
    {
      assert MarkerOk(s.queues[w], s.workers[w], Closed(s, w));
    }
  }

  // ----- the feeder's steps -----

  lemma NotYetEmitted(c: Config, s: State)
    requires Inv(c, s)
    ensures !Emitted(s, s.fed)
  {
    assert forall k :: 0 <= k < |s.out| && s.out[k].Some? ==> s.out[k].value.i != s.fed;
  }

  lemma AppendFresh(q: seq<Option<nat>>, v: nat)
    requires NoRepeats(q) && v !in Queued(q)
    ensures NoRepeats(q + [Some(v)])
  {
    forall j | 0 <= j < |q| && q[j].Some?
      ensures q[j].value != v
    {
      assert q[j].value in Queued(q);
    }
  }

  lemma FeedConserves(c: Config, s: State)
    requires Inv(c, s) && Enabled(c, s, Feed)
    ensures Shaped(c, Take(c, s, Feed)) && Conserved(c, Take(c, s, Feed))
  {
    var s' := Take(c, s, Feed);
    var w := s.fed % c.n;
    QueuedAppend(s.queues[w], Some(s.fed));
    NotYetEmitted(c, s);
    assert s.fed in Carried(s, w) ==> Home(c, s, w, s.fed);
    assert OneEach(s, w);
    AppendFresh(s.queues[w], s.fed);
    forall u | 0 <= u < c.n
      ensures OneEach(s', u) && Carried(s', u) == Carried(s, u) + (if u == w then {s.fed} else {})
    {
      assert OneEach(s, u);
    }
    forall u, v: nat | 0 <= u < c.n && v in Carried(s', u)
      ensures Home(c, s', u, v)
    {
      if v in Carried(s, u) { assert Home(c, s, u, v); }
    }
    forall i: nat | i < s'.fed
      ensures Placed(c, s', i)
    {
      if i < s.fed { assert Placed(c, s, i); }
    }
  }

  lemma FeedKeeps(c: Config, s: State)
    requires Inv(c, s) && Enabled(c, s, Feed)
    ensures Inv(c, Take(c, s, Feed))
  {
    var s' := Take(c, s, Feed);
    FeedConserves(c, s);
    forall w | 0 <= w < c.n
      ensures MarkerOk(s'.queues[w], s'.workers[w], Closed(s', w))
    {
      assert MarkerOk(s.queues[w], s.workers[w], Closed(s, w));
    }
  }

  lemma MoveFeederKeeps(c: Config, s: State, t: Step)
    requires Inv(c, s) && (t.EndOfList? || t.Join?) && Enabled(c, s, t)
    ensures Inv(c, Take(c, s, t))
  {
    var s' := Take(c, s, t);
    forall w | 0 <= w < c.n
      ensures Carried(s', w) == Carried(s, w) && OneEach(s', w)
    {
      assert OneEach(s, w);
    }
    SamePlaces(c, s, s');
    SameMarkers(c, s, s');
  }

  lemma CloseKeeps(c: Config, s: State)
    requires Inv(c, s) && Enabled(c, s, Close)
    ensures Inv(c, Take(c, s, Close))
  {
    var s' := Take(c, s, Close);
    var k := s.feeder.k;
    QueuedAppend(s.queues[k], None);
    assert MarkerOk(s.queues[k], s.workers[k], Closed(s, k));
    forall w | 0 <= w < c.n
      ensures Carried(s', w) == Carried(s, w) && OneEach(s', w)
      ensures MarkerOk(s'.queues[w], s'.workers[w], Closed(s', w))
    {
      assert OneEach(s, w) && MarkerOk(s.queues[w], s.workers[w], Closed(s, w));
    }
    SamePlaces(c, s, s');
  }

  lemma FinishKeeps(c: Config, s: State)
    requires Inv(c, s) && Enabled(c, s, Finish)
    ensures Inv(c, Take(c, s, Finish))
  {
    var s' := Take(c, s, Finish);
    ArrivedAppend(s.out, None);
    forall w | 0 <= w < c.n
      ensures Carried(s', w) == Carried(s, w) && OneEach(s', w)
    {
      assert OneEach(s, w);
    }
    SamePlaces(c, s, s');
    SameMarkers(c, s, s');
  }

  // ----- the workers' steps -----

  lemma FetchKeeps(c: Config, s: State, w: nat)
    requires Inv(c, s) && Enabled(c, s, Fetch(w))
    ensures Inv(c, Take(c, s, Fetch(w)))
  {
    var s' := Take(c, s, Fetch(w));
    var q := s.queues[w];
    assert OneEach(s, w) && MarkerOk(q, s.workers[w], Closed(s, w));
    QueuedTail(q);
    MarkerTail(q, Closed(s, w));
    if q[0].Some? { assert q[0].value in Carried(s, w) && Home(c, s, w, q[0].value); }
    forall u | 0 <= u < c.n
      ensures Carried(s', u) == Carried(s, u) && OneEach(s', u)
      ensures MarkerOk(s'.queues[u], s'.workers[u], Closed(s', u))
    {
      assert OneEach(s, u) && MarkerOk(s.queues[u], s.workers[u], Closed(s, u));
    }
    SamePlaces(c, s, s');
    assert MarkersOk(c, s') by { assert !AllStopped(s); }
  }

  lemma MarkerTail(q: seq<Option<nat>>, closed: bool)
    requires q != [] && MarkerOk(q, Idle, closed)
    ensures MarkerOk(q[1..], if q[0].Some? then Holding(q[0].value) else Stopped, closed)
  {
    forall k | 0 <= k < |q[1..]| && q[1..][k].None?
      ensures closed && k == |q[1..]| - 1
    {
      assert q[k + 1].None?;
    }
  }

  lemma DeliverConserves(c: Config, s: State, w: nat)
    requires Inv(c, s) && Enabled(c, s, Deliver(w))
    ensures Shaped(c, Take(c, s, Deliver(w))) && Conserved(c, Take(c, s, Deliver(w)))
    ensures Home(c, s, w, s.workers[w].i)
  {
    var s' := Take(c, s, Deliver(w));
    var i := s.workers[w].i;
    ArrivedAppend(s.out, Some(ResultOf(c, i)));
    assert i in Carried(s, w) && Home(c, s, w, i);
    forall u | 0 <= u < c.n
      ensures OneEach(s', u) && Carried(s', u) == Carried(s, u) - (if u == w then {i} else {})
    {
      assert OneEach(s, u);
    }
    assert forall v: nat :: Emitted(s', v) <==> Emitted(s, v) || v == i;
    forall u, v: nat | 0 <= u < c.n && v in Carried(s', u)
      ensures Home(c, s', u, v)
    {
      assert v in Carried(s, u) && Home(c, s, u, v);
    }
    forall v: nat | v < s'.fed
      ensures Placed(c, s', v)
    {
      assert Placed(c, s, v);
    }
  }

  lemma DeliverKeeps(c: Config, s: State, w: nat)
    requires Inv(c, s) && Enabled(c, s, Deliver(w))
    ensures Inv(c, Take(c, s, Deliver(w)))
  {
    var s' := Take(c, s, Deliver(w));
    DeliverConserves(c, s, w);
    DeliveredOut(c, s, s.workers[w].i);
    forall v | 0 <= v < c.n
      ensures MarkerOk(s'.queues[v], s'.workers[v], Closed(s', v))
    {
      assert MarkerOk(s.queues[v], s.workers[v], Closed(s, v));
    }
    assert !AllStopped(s);
  }

  lemma DeliveredOut(c: Config, s: State, i: nat)
    requires Inv(c, s) && i < s.fed && !Emitted(s, i)
    ensures OutOk(c, s.(out := s.out + [Some(ResultOf(c, i))]))
  {
    forall j | 0 <= j < |s.out| && s.out[j].Some?
      ensures s.out[j] != Some(ResultOf(c, i))
    {
      assert s.out[j].value.i in Arrived(s.out);
    }
  }

  // ----- the writer's step -----

  /** Draining moves positions from the buffer below `count` and writes them in order. */
  lemma {:induction false} DrainKeeps(c: Config, w: Writer, fed: nat)
    requires fed <= |c.items| && WriterOk(c, w, fed)
    ensures WriterOk(c, Drain(w), fed)
    ensures forall i: nat :: Reached(Drain(w), i) <==> Reached(w, i)
    decreases |w.buf|
  {
    if w.count in w.buf {
      var w' := Writer(w.count + 1, w.buf - {w.count}, w.written + Emit(w.buf[w.count]), w.more);
      assert |w.buf.Keys - {w.count}| < |w.buf.Keys|;
      assert w'.buf.Keys == w.buf.Keys - {w.count};
      DrainKeeps(c, w', fed);
      assert Drain(w) == Drain(w');
      assert forall i: nat :: Reached(w', i) <==> Reached(w, i);
    }
  }

  /** The writer as it is just before it drains. */
  ghost function Filled(w: Writer, m: Option<Result>): Writer
  {
    if m.Some? then w.(buf := w.buf[m.value.i := (m.value.packed, m.value.item)]) else w.(more := false)
  }

  lemma FilledReaches(w: Writer, m: Option<Result>)
    ensures forall i: nat :: Reached(Filled(w, m), i) <==> Reached(w, i) || (m.Some? && m.value.i == i)
  {
  }

  lemma WriteKeeps(c: Config, s: State)
    requires Inv(c, s) && Enabled(c, s, Write)
    ensures Inv(c, Take(c, s, Write))
  {
    var s' := Take(c, s, Write);
    var w := Filled(s.writer, s.out[0]);
    assert s'.writer == Drain(w);
    DrainKeeps(c, w, s.fed);
    ArrivedTail(s.out);
    FilledReaches(s.writer, s.out[0]);
    assert forall i: nat :: Emitted(s', i) <==> Emitted(s, i);
    forall u | 0 <= u < c.n
      ensures Carried(s', u) == Carried(s, u) && OneEach(s', u)
    {
      assert OneEach(s, u);
    }
    SamePlaces(c, s, s');
    SameMarkers(c, s, s');
    RestNotDrained(c, s);
    assert forall k :: 0 <= k < |s'.out| ==> s'.out[k] == s.out[k + 1];
  }

  /** What stays in the result queue is neither buffered nor written. */
  lemma RestNotDrained(c: Config, s: State)
    requires Inv(c, s) && s.out != []
    ensures var w := Drain(Filled(s.writer, s.out[0]));
      forall k :: 1 <= k < |s.out| && s.out[k].Some? ==> s.out[k].value.i >= w.count && s.out[k].value.i !in w.buf
  {
    DrainKeeps(c, Filled(s.writer, s.out[0]), s.fed);
    FilledReaches(s.writer, s.out[0]);
    var w := Drain(Filled(s.writer, s.out[0]));
    forall k | 1 <= k < |s.out| && s.out[k].Some?
      ensures !Reached(w, s.out[k].value.i)
    {
      assert s.out[0] != s.out[k];
    }
  }

  // ----- all runs -----

  lemma StepKeeps(c: Config, s: State, t: Step)
    requires Inv(c, s) && Enabled(c, s, t)
    ensures Inv(c, Take(c, s, t))
  {
    match t {
      case Feed => FeedKeeps(c, s);
      case EndOfList => MoveFeederKeeps(c, s, t);
      case Close => CloseKeeps(c, s);
      case Join => MoveFeederKeeps(c, s, t);
      case Finish => FinishKeeps(c, s);
      case Fetch(w) => FetchKeeps(c, s, w);
      case Deliver(w) => DeliverKeeps(c, s, w);
      case Write => WriteKeeps(c, s);
    }
  }
}
