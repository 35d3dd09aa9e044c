/** The round-robin resource allocators of src/resource.cc, used from several threads. */
module RoundRobin {
  import opened Sums

  const SIZE_MAX := 0xffff_ffff_ffff_ffff
  const MAX_DIGIT := SIZE_MAX / 2

  /** A thread between its atomic increment and its store still holds the value it got. */
  datatype Thread = Free | Resetting(ptr: nat)

  datatype State = State(curr: nat, threads: seq<Thread>)

  /** `Get` is the atomic increment, which returns the slot unless the counter has passed the
      limit; `Store` then resets the counter and returns the slot. */
  datatype Step = Get(t: nat) | Store(t: nat)

  predicate Enabled(s: State, e: Step)
  {
    match e
    case Get(t) => t < |s.threads| && s.threads[t].Free?
    case Store(t) => t < |s.threads| && s.threads[t].Resetting?
  }

  /** Unsigned 64-bit increment. */
  function Next(curr: nat): nat { (curr + 1) % (SIZE_MAX + 1) }

  function Take(s: State, n: nat, e: Step): (r: State)
    requires n > 0 && Enabled(s, e)
  {
    match e
    case Get(t) =>
      var ptr := Next(s.curr);
      State(ptr, if ptr > MAX_DIGIT then s.threads[t := Resetting(ptr)] else s.threads)
    case Store(t) => State((s.threads[t].ptr + 1) % n, s.threads[t := Free])
  }

  /** The index of the resource handed out by a step, once the step that returns it is taken. */
  function Slot(s: State, n: nat, e: Step): (i: nat)
    requires n > 0 && Enabled(s, e)
    ensures i < n
  {
    match e
    case Get(_) => Next(s.curr) % n
    case Store(t) => s.threads[t].ptr % n
  }

  // ----- the counter stays bounded -----

  function Waiting(t: Thread): nat { if t.Resetting? then 1 else 0 }

  /** How many threads have yet to store. */
  function Pending(threads: seq<Thread>): (k: nat) { Total(threads, Waiting) }

  ghost predicate Bounded(s: State)
  {
    s.curr <= MAX_DIGIT + Pending(s.threads)
  }

  /** The limit is passed at most once per thread that has yet to store, so with fewer than
      2^63 threads the counter never wraps around. */
  lemma StepBounded(s: State, n: nat, e: Step)
    requires 0 < n <= MAX_DIGIT && |s.threads| <= MAX_DIGIT && Enabled(s, e) && Bounded(s)
    ensures Bounded(Take(s, n, e)) && |Take(s, n, e).threads| == |s.threads|
    ensures e.Get? ==> Take(s, n, e).curr == s.curr + 1
    ensures e.Get? ==> (Take(s, n, e).threads[e.t].Resetting? <==> s.curr + 1 > 0x7fff_ffff_ffff_ffff)
  {
    match e {
      case Get(t) =>
        NoWrap(s);
        TotalUpdate(s.threads, Waiting, t, Resetting(s.curr + 1));
      case Store(t) => TotalUpdate(s.threads, Waiting, t, Free);
    }
  }

  // ----- runs -----

  /** The states and the steps between them, from a fresh allocator with `threads` threads. */
  ghost predicate Run(n: nat, states: seq<State>, steps: seq<Step>)
  {
    && n > 0 && |states| == |steps| + 1
    && states[0].curr == 0 && (forall t :: 0 <= t < |states[0].threads| ==> states[0].threads[t].Free?)
    && forall i :: 0 <= i < |steps| ==> Enabled(states[i], steps[i]) && states[i + 1] == Take(states[i], n, steps[i])
  }

  /** In every interleaving. */
  lemma {:induction false} RunBounded(n: nat, states: seq<State>, steps: seq<Step>, i: nat)
    requires Run(n, states, steps) && n <= MAX_DIGIT && |states[0].threads| <= MAX_DIGIT && i < |states|
    ensures Bounded(states[i]) && |states[i].threads| == |states[0].threads|
    decreases i
  {
    if i == 0 {
      TotalWithin(states[0].threads, Waiting, 0);
    } else {
      RunBounded(n, states, steps, i - 1);
      assert Enabled(states[i - 1], steps[i - 1]) && states[i - 1 + 1] == Take(states[i - 1], n, steps[i - 1]);
      StepBounded(states[i - 1], n, steps[i - 1]);
    }
  }

  // ----- round robin between resets -----

  ghost predicate NoStore(steps: seq<Step>, a: nat, b: nat)
  {
    b <= |steps| && forall i :: a <= i < b ==> steps[i].Get?
  }

  lemma {:induction false} CountsUp(n: nat, states: seq<State>, steps: seq<Step>, a: nat, b: nat)
    requires Run(n, states, steps) && n <= MAX_DIGIT && |states[0].threads| <= MAX_DIGIT && a <= b &&
      NoStore(steps, a, b)
    ensures states[b].curr == states[a].curr + (b - a)
    decreases b
  {
    if a < b {
      CountsUp(n, states, steps, a, b - 1);
      RunBounded(n, states, steps, b - 1);
      assert Enabled(states[b - 1], steps[b - 1]) && states[b - 1 + 1] == Take(states[b - 1], n, steps[b - 1]);
      StepBounded(states[b - 1], n, steps[b - 1]);
    }
  }

  /** Between resets the slots go round: any `n` requests in a row get `n` different resources,
      whichever threads make them. */
  lemma EachSlotOnce(n: nat, states: seq<State>, steps: seq<Step>, a: nat, i: nat, j: nat)
    requires Run(n, states, steps) && n <= MAX_DIGIT && |states[0].threads| <= MAX_DIGIT
    requires NoStore(steps, a, a + n) && a <= i < j < a + n
    ensures Enabled(states[i], steps[i]) && Enabled(states[j], steps[j])
    ensures Slot(states[i], n, steps[i]) != Slot(states[j], n, steps[j])
    ensures Slot(states[j], n, steps[j]) == (Slot(states[i], n, steps[i]) + (j - i)) % n
  {
    CountsUp(n, states, steps, i, j);
    RunBounded(n, states, steps, i);
    RunBounded(n, states, steps, j);
    NoWrap(states[i]);
    NoWrap(states[j]);
    var p := states[i].curr + 1;
    Distance(p, j - i, n);
  }

  lemma NoWrap(s: State)
    requires Bounded(s) && |s.threads| <= MAX_DIGIT
    ensures Next(s.curr) == s.curr + 1
  {
    TotalWithin(s.threads, Waiting, 1);
  }

  lemma Distance(p: nat, k: nat, n: nat)
    requires 0 < k < n
    ensures (p + k) % n == (p % n + k) % n && (p + k) % n != p % n
  {
    var q, r := p / n, p % n;
    assert p + k == n * q + (r + k);
    if r + k < n {
      Remainder(p + k, n, q, r + k);
    } else {
      assert p + k == n * (q + 1) + (r + k - n);
      Remainder(p + k, n, q + 1, r + k - n);
      Remainder(r + k, n, 1, r + k - n);
    }
  }

  lemma Remainder(a: int, n: int, q: int, r: int)
    requires n > 0 && 0 <= r < n && a == n * q + r
    ensures a % n == r
  {
    var d := a / n - q;
    assert n * d == r - a % n;
    MulAway(n, d);
  }

  lemma MulAway(n: int, d: int)
    requires n > 0
    ensures d >= 1 ==> n * d >= n
    ensures d <= -1 ==> n * d <= -n
  {
  }

  lemma SameRemainder(a: int, b: int, n: int)
    requires n > 0
    ensures a % n == b % n <==> (a - b) % n == 0
  {
    var q := a / n - b / n;
    assert a - b == n * q + (a % n - b % n);
    if a % n == b % n { Remainder(a - b, n, q, 0); }
    if (a - b) % n == 0 {
      var d := (a - b) / n - q;
      assert n * d == a % n - b % n;
      MulAway(n, d);
    }
  }

  /** The slot handed out right after a reset is the one that follows the last request if and only
      if the counter stood, modulo the number of slots, one beyond the value being reset. */
  lemma ResetGoesOn(s: State, n: nat, t: nat)
    requires 1 < n <= MAX_DIGIT && Enabled(s, Store(t))
    ensures var r := Take(s, n, Store(t));
      && Enabled(r, Get(t)) && Slot(r, n, Get(t)) == (s.threads[t].ptr + 2) % n
      && (Slot(r, n, Get(t)) == (s.curr + 1) % n <==> (s.curr - s.threads[t].ptr) % n == 1)
  {
    var ptr := s.threads[t].ptr;
    Distance(ptr + 1, 1, n);
    assert Next((ptr + 1) % n) == (ptr + 1) % n + 1;
    SameRemainder(ptr + 2, s.curr + 1, n);
    SameRemainder(s.curr - ptr, 1, n);
    SameRemainder(0, ptr + 1 - s.curr, n);
    SameRemainder(0, s.curr - ptr - 1, n);
    Remainder(1, n, 0, 1);
    Negated(s.curr - ptr - 1, n);
  }

  lemma Negated(a: int, n: int)
    requires n > 0
    ensures a % n == 0 <==> (-a) % n == 0
  {
    if a % n == 0 { assert -a == n * (-(a / n)) + 0; Remainder(-a, n, -(a / n), 0); }
    if (-a) % n == 0 { assert a == n * (-((-a) / n)) + 0; Remainder(a, n, -((-a) / n), 0); }
  }

  /** So a reset that no other request came before skips exactly one slot. */
  lemma ResetAloneSkips(s: State, n: nat, t: nat)
    requires 1 < n <= MAX_DIGIT && Enabled(s, Store(t)) && s.curr == s.threads[t].ptr
    ensures var r := Take(s, n, Store(t));
      Enabled(r, Get(t)) && Slot(r, n, Get(t)) == (s.curr + 2) % n && Slot(r, n, Get(t)) != (s.curr + 1) % n
  {
    ResetGoesOn(s, n, t);
  }

  /** And one after which another thread has had its turn skips none. */
  lemma ResetBetweenRequests(n: nat)
    requires 2 < n <= MAX_DIGIT
    ensures
      var s0 := State(MAX_DIGIT, [Free, Free]);
      var s1 := Take(s0, n, Get(0));
      Enabled(s1, Get(1)) && var s2 := Take(s1, n, Get(1));
      Enabled(s2, Store(0)) && var s3 := Take(s2, n, Store(0));
      && Enabled(s3, Get(0)) && Slot(s1, n, Get(1)) == (MAX_DIGIT + 2) % n && Slot(s3, n, Get(0)) == (MAX_DIGIT + 3) % n
  {
    var s0 := State(MAX_DIGIT, [Free, Free]);
    var s1 := Take(s0, n, Get(0));
    var s2 := Take(s1, n, Get(1));
    Remainder(1, n, 0, 1);
    ResetGoesOn(s2, n, 0);
  }

  // ----- seeding the parallel random samplers -----

  const MAX_GPUS := 16
  const RAND_MAGIC := 127

  /** The seed of sampler `i`, in unsigned 32-bit arithmetic. */
  function SamplerSeed(devId: int, i: nat, globalSeed: nat): nat
  {
    (devId + i * MAX_GPUS + globalSeed * RAND_MAGIC) % 0x1_0000_0000
  }

  /** Samplers of different devices, or different copies on one device, start from different seeds. */
  lemma SeedsDiffer(devId: int, i: nat, devId': int, i': nat, globalSeed: nat)
    requires 0 <= devId < 16 && 0 <= devId' < 16 && i < 0x1000_0000 && i' < 0x1000_0000
    ensures SamplerSeed(devId, i, globalSeed) == SamplerSeed(devId', i', globalSeed) <==> devId == devId' && i == i'
  {
    var a, b, g := devId + i * MAX_GPUS, devId' + i' * MAX_GPUS, globalSeed * RAND_MAGIC;
    SameRemainder(a + g, b + g, 0x1_0000_0000);
    if (a - b) % 0x1_0000_0000 == 0 { MulAway(0x1_0000_0000, (a - b) / 0x1_0000_0000); }
  }

  /** The seeds: the device itself, 16 further for each copy and 127 for each global seed. */
  lemma SeedMoves(devId: int, i: nat, globalSeed: nat)
    ensures 0 <= devId < 0x1_0000_0000 ==> SamplerSeed(devId, 0, 0) == devId
    ensures SamplerSeed(devId, i + 1, globalSeed) == (SamplerSeed(devId, i, globalSeed) + 16) % 0x1_0000_0000
    ensures SamplerSeed(devId, i, globalSeed + 1) == (SamplerSeed(devId, i, globalSeed) + 127) % 0x1_0000_0000
  {
    var a, n := devId + i * MAX_GPUS + globalSeed * RAND_MAGIC, 0x1_0000_0000;
    SameRemainder(a, a % n, n);
    SameRemainder(a + 127, a % n + 127, n);
    SameRemainder(a + 16, a % n + 16, n);
  }

  function FreshSeeds(devId: int, n: nat, globalSeed: nat): (s: seq<nat>)
    ensures |s| == n && forall i :: 0 <= i < n ==> s[i] == SamplerSeed(devId, i, globalSeed)
  {
    seq(n, i requires 0 <= i => SamplerSeed(devId, i, globalSeed))
  }

  /** The slot and the next counter of one undisturbed call: one thread taking its step, and its
      second step if there is one. */
  function Call(curr: nat, n: nat): (r: (nat, nat))
    requires n > 0
  {
    var s := State(curr, [Free]);
    var t := Take(s, n, Get(0));
    (Slot(s, n, Get(0)), if t.threads[0].Free? then t.curr else Take(t, n, Store(0)).curr)
  }

  /** The slots of `k` undisturbed calls. */
  ghost function Slots(curr: nat, n: nat, k: nat): (s: seq<nat>)
    requires n > 0
    ensures |s| == k
    decreases k
  {
    if k == 0 then [] else [Call(curr, n).0] + Slots(Call(curr, n).1, n, k - 1)
  }

  /** The counter after `k` undisturbed calls. */
  ghost function After(curr: nat, n: nat, k: nat): nat
    requires n > 0
    decreases k
  {
    if k == 0 then curr else After(Call(curr, n).1, n, k - 1)
  }

  lemma {:induction false} SlotsSnoc(curr: nat, n: nat, k: nat)
    requires n > 0
    ensures After(curr, n, k + 1) == Call(After(curr, n, k), n).1
    ensures Slots(curr, n, k + 1) == Slots(curr, n, k) + [Call(After(curr, n, k), n).0]
    decreases k
  {
    if k > 0 {
      SlotsSnoc(Call(curr, n).1, n, k - 1);
    }
  }

  /** Without a reset the slots go round, starting behind the counter. */
  lemma {:induction false} SlotsGoRound(curr: nat, n: nat, k: nat, j: nat)
    requires n > 0 && curr + k <= MAX_DIGIT && j < k
    ensures Slots(curr, n, k)[j] == (curr + 1 + j) % n
    decreases k
  {
    assert Next(curr) == curr + 1;
    if j > 0 {
      SlotsGoRound(curr + 1, n, k - 1, j - 1);
    }
  }

  class ParallelRandom {
    const devId: int
    const n: nat
    var seeds: seq<nat>
    var curr: nat

    constructor (devId: int, n: nat, globalSeed: nat)
      ensures this.devId == devId && this.n == n
      ensures seeds == FreshSeeds(devId, n, globalSeed) && curr == 0
    {
      this.devId, this.n, curr := devId, n, 0;
      seeds := [];
      new;
      for i := 0 to n
        invariant this.devId == devId && this.n == n && curr == 0
        invariant |seeds| == i && forall k :: 0 <= k < i ==> seeds[k] == SamplerSeed(devId, k, globalSeed)
      {
        seeds := seeds + [SamplerSeed(devId, i, globalSeed)];
      }
      assert seeds == FreshSeeds(devId, n, globalSeed);
    }

    /** Afterwards the object is in the state of a fresh one made with this seed. */
    method SeedWithDeviceID(globalSeed: nat)
      requires |seeds| == n
      modifies this
      ensures seeds == FreshSeeds(devId, n, globalSeed) && curr == 0
    {
      for i := 0 to |seeds|
        invariant |seeds| == n && forall k :: 0 <= k < i ==> seeds[k] == SamplerSeed(devId, k, globalSeed)
      {
        seeds := seeds[i := SamplerSeed(devId, i, globalSeed)];
      }
      assert seeds == FreshSeeds(devId, n, globalSeed);
      curr := 0;
    }

    method GetNext() returns (slot: nat)
      requires n > 0
      modifies this`curr
      ensures (slot, curr) == Call(old(curr), n)
    {
      curr := Next(curr);
      var ptr := curr;
      if ptr > MAX_DIGIT {
        curr := (ptr + 1) % n;
      }
      slot := ptr % n;
    }

    method GetMany(k: nat) returns (slots: seq<nat>)
      requires n > 0
      modifies this`curr
      ensures slots == Slots(old(curr), n, k)
    {
      slots := [];
      for i := 0 to k
        invariant slots == Slots(old(curr), n, i) && curr == After(old(curr), n, i)
      {
        SlotsSnoc(old(curr), n, i);
        var slot := GetNext();
        slots := slots + [slot];
      }
    }
  }

  /** After reseeding, an allocator has the seeds and returns the slots of one newly made with that
      seed, for any number of calls. */
  method Replay(used: ParallelRandom, globalSeed: nat, k: nat) returns (again: seq<nat>, anew: seq<nat>)
    requires |used.seeds| == used.n && used.n > 0
    modifies used
    ensures used.seeds == FreshSeeds(used.devId, used.n, globalSeed)
    ensures again == anew && |again| == k
    ensures k <= MAX_DIGIT ==> forall j :: 0 <= j < k ==> again[j] == (j + 1) % used.n
  {
    used.SeedWithDeviceID(globalSeed);
    again := used.GetMany(k);
    var made := new ParallelRandom(used.devId, used.n, globalSeed);
    assert made.seeds == used.seeds;
    anew := made.GetMany(k);
    forall j | 0 <= j < k && k <= MAX_DIGIT
      ensures again[j] == (j + 1) % used.n
    {
      SlotsGoRound(0, used.n, k, j);
    }
  }
}
