/** What every step of the record-packing pipeline keeps. */
module PipelineInvariant {
  import opened RecordPipeline
  import opened Wrappers

  // ----- where each list position is -----

  ghost function Queued(q: seq<Option<nat>>): set<nat>
  {
    set k | 0 <= k < |q| && q[k].Some? :: q[k].value
  }

  ghost function Arrived(out: seq<Option<Result>>): set<nat>
  {
    set k | 0 <= k < |out| && out[k].Some? :: out[k].value.i
  }

  /** The positions worker `w` has been given and not yet delivered. */
  ghost function Carried(s: State, w: int): set<nat>
    requires 0 <= w < |s.queues| && w < |s.workers|
  {
    Queued(s.queues[w]) + match s.workers[w] { case Holding(i) => {i} case _ => {} }
  }

  /** The writer has position `i`, written or waiting in the buffer. */
  ghost predicate Reached(w: Writer, i: nat)
  {
    i < w.count || i in w.buf
  }

  ghost predicate Emitted(s: State, i: nat)
  {
    Reached(s.writer, i) || i in Arrived(s.out)
  }

  ghost predicate NoRepeats(q: seq<Option<nat>>)
  {
    forall j, k :: 0 <= j < k < |q| && q[j].Some? ==> q[j] != q[k]
  }

  // ----- the parts of the invariant -----

  /** Worker `w` may carry position `v`. */
  ghost predicate Home(c: Config, s: State, w: int, v: nat)
    requires c.n > 0
  {
    v < s.fed && v % c.n == w && !Emitted(s, v)
  }

  ghost predicate Placed(c: Config, s: State, i: nat)
    requires Shaped(c, s)
  {
    Emitted(s, i) || i in Carried(s, i % c.n)
  }

  ghost predicate OneEach(s: State, w: int)
    requires 0 <= w < |s.queues| && w < |s.workers|
  {
    NoRepeats(s.queues[w]) && (s.workers[w].Holding? ==> s.workers[w].i !in Queued(s.queues[w]))
  }

  /** Every fed position is in exactly one place, and only at the worker it was meant for. */
  ghost predicate Conserved(c: Config, s: State)
    requires Shaped(c, s)
  {
    && (forall w :: 0 <= w < c.n ==> OneEach(s, w))
    && (forall w, v: nat :: 0 <= w < c.n && v in Carried(s, w) ==> Home(c, s, w, v))
    && forall i: nat :: i < s.fed ==> Placed(c, s, i)
  }

  ghost predicate OutOk(c: Config, s: State)
    requires s.fed <= |c.items|
  {
    && (forall k :: 0 <= k < |s.out| && s.out[k].Some? ==>
          s.out[k].value.i < s.fed && s.out[k].value == ResultOf(c, s.out[k].value.i))
    && (forall k :: 0 <= k < |s.out| && s.out[k].Some? ==>
          s.out[k].value.i >= s.writer.count && s.out[k].value.i !in s.writer.buf)
    && forall j, k :: 0 <= j < k < |s.out| && s.out[j].Some? ==> s.out[j] != s.out[k]
  }

  /** What has been written once `count` positions are through: the packable ones in list order. */
  ghost function Packed(c: Config, count: nat): seq<Record>
    requires count <= |c.items|
  {
    if count == 0 then []
    else Packed(c, count - 1) + Emit((c.encode(c.items[count - 1]), c.items[count - 1]))
  }

  ghost predicate WriterOk(c: Config, w: Writer, fed: nat)
    requires fed <= |c.items|
  {
    && w.count <= fed
    && (forall i :: i in w.buf ==> w.count <= i < fed && w.buf[i] == (c.encode(c.items[i]), c.items[i]))
    && w.written == Packed(c, w.count)
  }

  ghost predicate Closed(s: State, w: int)
  {
    match s.feeder
    case Feeding => false
    case Closing(k) => w < k
    case _ => true
  }

  ghost predicate AllStopped(s: State)
  {
    forall w :: 0 <= w < |s.workers| ==> s.workers[w].Stopped?
  }

  /** End markers: behind all items of their queue, present exactly until the worker stops. */
  ghost predicate MarkersOk(c: Config, s: State)
    requires Shaped(c, s)
  {
    && (!s.feeder.Feeding? ==> s.fed == |c.items|)
    && (s.feeder.Closing? ==> s.feeder.k < c.n)
    && (forall w :: 0 <= w < c.n ==> MarkerOk(s.queues[w], s.workers[w], Closed(s, w)))
    && (s.feeder.Joined? || s.feeder.Finished? ==> AllStopped(s))
  }

  ghost predicate MarkerOk(q: seq<Option<nat>>, worker: Worker, closed: bool)
  {
    && (forall k :: 0 <= k < |q| && q[k].None? ==> closed && k == |q| - 1)
    && (worker.Stopped? ==> closed && q == [])
    && (closed && !worker.Stopped? ==> q != [] && q[|q| - 1].None?)
  }

  ghost predicate EndOk(s: State)
  {
    && (forall k :: 0 <= k < |s.out| && s.out[k].None? ==> s.feeder.Finished? && k == |s.out| - 1)
    && (s.feeder.Finished? && s.writer.more ==> s.out != [] && s.out[|s.out| - 1].None?)
    && (!s.writer.more ==> s.feeder.Finished? && s.out == [])
    && s.writer.count !in s.writer.buf
  }

  ghost predicate Inv(c: Config, s: State)
  {
    Shaped(c, s) && Conserved(c, s) && OutOk(c, s) && WriterOk(c, s.writer, s.fed) && MarkersOk(c, s) && EndOk(s)
  }

  // ----- sets under queue operations -----

  lemma QueuedAppend(q: seq<Option<nat>>, m: Option<nat>)
    ensures Queued(q + [m]) == Queued(q) + (if m.Some? then {m.value} else {})
  {
    forall v | v in Queued(q + [m])
      ensures v in Queued(q) + (if m.Some? then {m.value} else {})
    {
      var k :| 0 <= k < |q + [m]| && (q + [m])[k].Some? && (q + [m])[k].value == v;
      if k < |q| { assert q[k].Some? && q[k].value == v; }
    }
    forall v | v in Queued(q) + (if m.Some? then {m.value} else {})
      ensures v in Queued(q + [m])
    {
      if v in Queued(q) {
        var k :| 0 <= k < |q| && q[k].Some? && q[k].value == v;
        assert (q + [m])[k] == q[k];
      } else {
        assert (q + [m])[|q|] == m;
      }
    }
  }

  lemma QueuedTail(q: seq<Option<nat>>)
    requires q != [] && NoRepeats(q)
    ensures Queued(q[1..]) == Queued(q) - (if q[0].Some? then {q[0].value} else {})
    ensures q[0].Some? ==> q[0].value in Queued(q)
    ensures NoRepeats(q[1..])
  {
    forall v
      ensures v in Queued(q[1..]) <==> v in Queued(q) && q[0] != Some(v)
    {
      if v in Queued(q[1..]) {
        var k :| 0 <= k < |q[1..]| && q[1..][k].Some? && q[1..][k].value == v;
        assert q[k + 1] == Some(v);
      }
      if v in Queued(q) && q[0] != Some(v) {
        var k :| 0 <= k < |q| && q[k].Some? && q[k].value == v;
        assert q[1..][k - 1] == Some(v);
      }
    }
  }

  lemma ArrivedAppend(out: seq<Option<Result>>, m: Option<Result>)
    ensures Arrived(out + [m]) == Arrived(out) + (if m.Some? then {m.value.i} else {})
  {
    var more := out + [m];
    forall v
      ensures v in Arrived(more) <==> v in Arrived(out) || (m.Some? && m.value.i == v)
    {
      if v in Arrived(more) {
        var k :| 0 <= k < |more| && more[k].Some? && more[k].value.i == v;
        if k < |out| { assert out[k].Some? && out[k].value.i == v; }
      }
      if v in Arrived(out) {
        var k :| 0 <= k < |out| && out[k].Some? && out[k].value.i == v;
        assert more[k] == out[k];
      }
      if m.Some? && m.value.i == v { assert more[|out|] == m; }
    }
  }

  /** Taking the first message out, whatever repeats there may be. */
  lemma ArrivedTail(out: seq<Option<Result>>)
    requires out != []
    ensures Arrived(out) == Arrived(out[1..]) + (if out[0].Some? then {out[0].value.i} else {})
  {
    assert out == [out[0]] + out[1..];
    var tail := out[1..];
    forall v
      ensures v in Arrived(out) <==> v in Arrived(tail) || (out[0].Some? && out[0].value.i == v)
    {
      if v in Arrived(out) {
        var k :| 0 <= k < |out| && out[k].Some? && out[k].value.i == v;
        if k > 0 { assert tail[k - 1] == out[k]; }
      }
      if v in Arrived(tail) {
        var k :| 0 <= k < |tail| && tail[k].Some? && tail[k].value.i == v;
        assert out[k + 1] == tail[k];
      }
    }
  }
}
