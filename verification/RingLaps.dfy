/** Old headers at the skip point: a run where one breaks the queue, and the runs from zeroed
    memory where none can appear, so that headroom alone is enough. */
module RingLaps {
  import opened Bytes
  import opened FrameMeta
  import opened RingSpec
  import opened RingFifo
  import opened RingRuns

  /** A channel right after Create on newly allocated shared memory. */
  function Created(cap: nat): Ring {
    Ring(seq(cap, _ => 0), 0, 0)
  }

  predicate HeadroomThroughout(r: Ring, ops: seq<Op>)
    requires Runnable(r, ops)
    decreases |ops|
  {
    ops != [] ==>
      && (ops[0].Put? ==> Headroom(r, |ops[0].image|))
      && HeadroomThroughout(Step(r, ops[0]).0, ops[1..])
  }

  /** No wrapping write of the run skips onto an old header. */
  predicate CleanThroughout(r: Ring, ops: seq<Op>)
    requires Runnable(r, ops)
    decreases |ops|
  {
    ops != [] ==>
      && (ops[0].Put? && Wraps(r, |ops[0].image|) ==> SkipSeen(r.mem, r.head))
      && CleanThroughout(Step(r, ops[0]).0, ops[1..])
  }

  lemma {:induction false} HeadroomRoom(r: Ring, ops: seq<Op>)
    requires Runnable(r, ops) && HeadroomThroughout(r, ops) && CleanThroughout(r, ops)
    ensures RoomThroughout(r, ops)
    decreases |ops|
  {
    if ops != [] {
      assert ops[0] in ops;
      if ops[0].Put? {
        HeadroomGivesRoom(r, |ops[0].image|);
      }
      HeadroomRoom(Step(r, ops[0]).0, ops[1..]);
    }
  }

  /** The two hypotheses a caller can check before each write, headroom and no old header at the
      skip point, make the ring a queue on every run; refused writes need neither. */
  lemma HeadroomRunIsFifo(r: Ring, q: seq<seq<byte>>, l: Layout, ops: seq<Op>)
    requires Represents(r, q, l) && Runnable(r, ops)
    requires HeadroomThroughout(r, Taken(r, ops)) && CleanThroughout(r, Taken(r, ops))
    ensures Answered(Run(r, ops).1) == QueueRun(q, Taken(r, ops)).1
    ensures exists l' :: Represents(Run(r, ops).0, QueueRun(q, Taken(r, ops)).0, l')
  {
    HeadroomRoom(r, Taken(r, ops));
    RunIsFifo(r, q, l, ops);
  }

  lemma ZeroIsNotMagic(mem: seq<byte>, s: nat)
    requires s <= |mem| && ZeroFrom(mem, s)
    ensures SkipSeen(mem, s)
  {
    if s + METADATA_SIZE <= |mem| {
      assert mem[s..s + 4] == [0, 0, 0, 0];
      assert FromLittle([0]) == 0;
      assert FromLittle([0, 0]) == 0 by { assert [0, 0][1..] == [0]; }
      assert FromLittle([0, 0, 0]) == 0 by { assert [0, 0, 0][1..] == [0, 0]; }
      assert FromLittle([0, 0, 0, 0]) == 0 by { assert [0, 0, 0, 0][1..] == [0, 0, 0]; }
    }
  }

  // ------------------------------------------------------------------ equal frames

  /** Both indices are multiples of the frame size n, the lap holds m frames, and nothing was ever
      written past its end. */
  predicate OnGrid(r: Ring, n: nat, h: nat, t: nat, m: nat) {
    && r.head == h * n && r.tail == t * n
    && m * n <= r.Cap() < m * n + n
    && ZeroFrom(r.mem, m * n)
  }

  predicate ZeroFrom(mem: seq<byte>, e: nat) {
    forall i :: e <= i < |mem| ==> mem[i] == 0
  }

  lemma NextOnGrid(h: nat, m: nat, n: nat)
    requires h < m
    ensures h * n + n <= m * n
  {
    var d := m - h - 1;
    assert m * n == (h + 1 + d) * n == h * n + n + d * n;
  }

  lemma GridEnd(cap: nat, n: nat, h: nat, m: nat)
    requires h * n <= cap && m * n <= cap < m * n + n
    ensures h * n + n > cap ==> h * n == m * n
    ensures h * n + n <= cap ==> (h + 1) * n == h * n + n <= m * n
  {
    if h < m {
      NextOnGrid(h, m, n);
    } else if m < h {
      NextOnGrid(m, h, n);
    }
  }

  lemma GridRoom(r: Ring, n: nat, h: nat, t: nat, m: nat)
    requires r.Sane() && n > 0 && OnGrid(r, n, h, t, m) && Headroom(r, n)
    ensures Room(r, n)
  {
    GridEnd(r.Cap(), n, h, m);
    if Wraps(r, n) {
      ZeroIsNotMagic(r.mem, r.head);
    }
    HeadroomGivesRoom(r, n);
  }

  /** A write that stays below e leaves the memory from e on alone. */
  lemma PutBelow(r: Ring, b: seq<byte>, e: nat)
    requires r.Sane() && IsImage(b) && |b| <= r.Cap() && Room(r, |b|)
    requires (if Wraps(r, |b|) then 0 else r.head) + |b| <= e && ZeroFrom(r.mem, e)
    ensures var r' := Write(r, b).0;
            && r'.head == (if Wraps(r, |b|) then 0 else r.head) + |b| && r'.tail == r.tail
            && r'.Cap() == r.Cap() && ZeroFrom(r'.mem, e)
  {
    PlanFits(r, |b|);
    SpliceBytes(r.mem, WritePlan(r.Cap(), r.head, r.tail, |b|).start, b);
  }

  lemma GridPut(r: Ring, b: seq<byte>, h: nat, t: nat, m: nat) returns (h': nat)
    requires r.Sane() && IsImage(b) && |b| <= r.Cap() && Room(r, |b|)
    requires OnGrid(r, |b|, h, t, m)
    ensures OnGrid(Write(r, b).0, |b|, h', t, m)
  {
    var k := if Wraps(r, |b|) then 0 else h;
    NextMultiple(k, |b|);
    GridEnd(r.Cap(), |b|, k, m);
    PutBelow(r, b, m * |b|);
    h' := k + 1;
  }

  lemma GridGet(r: Ring, q: seq<seq<byte>>, l: Layout, n: nat, h: nat, t: nat, m: nat)
      returns (t': nat)
    requires Represents(r, q, l) && OnGrid(r, n, h, t, m)
    requires forall i :: 0 <= i < |q| ==> |q[i]| == n
    ensures OnGrid(Read(r).0, n, h, t', m)
  {
    ReadRefines(r, q, l);
    if q == [] {
      t' := t;
    } else {
      var k := if Front(r, l) == r.tail then t else 0;
      t' := k + 1;
      assert |q[0]| == n;
      NextMultiple(k, n);
    }
  }

  lemma NextMultiple(k: nat, n: nat)
    ensures (k + 1) * n == k * n + n && 0 * n == 0
  {
  }

  lemma {:induction false} GridRun(
      r: Ring, q: seq<seq<byte>>, l: Layout, ops: seq<Op>, n: nat, h: nat, t: nat, m: nat)
    requires Represents(r, q, l) && Runnable(r, ops) && OnGrid(r, n, h, t, m)
    requires forall i :: 0 <= i < |q| ==> |q[i]| == n
    requires forall op :: op in ops && op.Put? ==> |op.image| == n
    requires HeadroomThroughout(r, ops)
    ensures RoomThroughout(r, ops)
    decreases |ops|
  {
    hide Uint32;
    if ops != [] {
      assert ops[0] in ops;
      var h', t' := h, t;
      if ops[0].Put? {
        GridRoom(r, n, h, t, m);
        h' := GridPut(r, ops[0].image, h, t, m);
      } else {
        t' := GridGet(r, q, l, n, h, t, m);
      }
      StepRefines(r, q, l, ops[0]);
      GridRun(Step(r, ops[0]).0, QueueStep(q, ops[0]).0, NextLayout(r, q, l, ops[0]), ops[1..],
              n, h', t', m);
    }
  }

  /** Equal frames: from zeroed memory, headroom alone makes the ring a queue, lap after lap. */
  lemma EqualFramesFifo(cap: nat, n: nat, ops: seq<Op>)
    requires n > 0 && Runnable(Created(cap), ops)
    requires forall op :: op in Taken(Created(cap), ops) && op.Put? ==> |op.image| == n
    requires HeadroomThroughout(Created(cap), Taken(Created(cap), ops))
    ensures Answered(Run(Created(cap), ops).1) == QueueRun([], Taken(Created(cap), ops)).1
  {
    var r := Created(cap);
    assert Represents(r, [], Straight);
    var m := cap / n;
    assert OnGrid(r, n, 0, 0, m);
    GridRun(r, [], Straight, Taken(r, ops), n, 0, 0, m);
    RunIsFifo(r, [], Straight, ops);
  }

  // ------------------------------------------------------------------ the first wrap

  /** How many writes of the run wrap. */
  function WrapCount(r: Ring, ops: seq<Op>): nat
    requires Runnable(r, ops)
    decreases |ops|
  {
    if ops == [] then 0
    else
      (if ops[0].Put? && Wraps(r, |ops[0].image|) then 1 else 0)
      + WrapCount(Step(r, ops[0]).0, ops[1..])
  }

  /** Nothing was ever written past head, and the ring never wrapped. */
  predicate Untrodden(r: Ring, l: Layout) {
    l.Straight? && ZeroFrom(r.mem, r.head)
  }

  lemma UntroddenPut(r: Ring, q: seq<seq<byte>>, l: Layout, b: seq<byte>)
    requires Represents(r, q, l) && IsImage(b) && |b| <= r.Cap() && Headroom(r, |b|)
    requires Wraps(r, |b|) ==> Untrodden(r, l)
    ensures Room(r, |b|)
    ensures Untrodden(r, l) && !Wraps(r, |b|) ==> Untrodden(Write(r, b).0, l)
  {
    hide Uint32, Decode, Write;
    if Wraps(r, |b|) {
      ZeroIsNotMagic(r.mem, r.head);
    }
    HeadroomGivesRoom(r, |b|);
    if Untrodden(r, l) && !Wraps(r, |b|) {
      PutBelow(r, b, r.head + |b|);
    }
  }

  lemma {:induction false} OneWrapRun(
      r: Ring, q: seq<seq<byte>>, l: Layout, ops: seq<Op>)
    requires Represents(r, q, l) && Runnable(r, ops) && HeadroomThroughout(r, ops)
    requires WrapCount(r, ops) <= if Untrodden(r, l) then 1 else 0
    ensures RoomThroughout(r, ops)
    decreases |ops|
  {
    if ops != [] {
      assert ops[0] in ops;
      if ops[0].Put? {
        UntroddenPut(r, q, l, ops[0].image);
      } else {
        ReadRefines(r, q, l);
      }
      StepRefines(r, q, l, ops[0]);
      OneWrapRun(Step(r, ops[0]).0, QueueStep(q, ops[0]).0, NextLayout(r, q, l, ops[0]), ops[1..]);
    }
  }

  /** Frames of any sizes: from zeroed memory, headroom alone makes the ring a queue on every run
      in which at most one write wraps. */
  lemma FirstWrapFifo(cap: nat, ops: seq<Op>)
    requires Runnable(Created(cap), ops)
    requires HeadroomThroughout(Created(cap), Taken(Created(cap), ops))
    requires WrapCount(Created(cap), Taken(Created(cap), ops)) <= 1
    ensures Answered(Run(Created(cap), ops).1) == QueueRun([], Taken(Created(cap), ops)).1
  {
    var r := Created(cap);
    assert Represents(r, [], Straight);
    OneWrapRun(r, [], Straight, Taken(r, ops));
    RunIsFifo(r, [], Straight, ops);
  }

  // ------------------------------------------------------------------ the second wrap can break it

  /** One write followed by one read on an empty ring. */
  lemma PutGet(r: Ring, b: seq<byte>) returns (r': Ring)
    requires Represents(r, [], Straight) && IsImage(b) && |b| <= r.Cap() && Room(r, |b|)
    ensures var start := if Wraps(r, |b|) then 0 else r.head;
            start + |b| <= r.Cap()
            && r' == Ring(Splice(r.mem, start, b), start + |b|, start + |b|)
    ensures Represents(r', [], Straight)
    ensures Step(r, Put(b)).1 == Accepted
    ensures Step(Step(r, Put(b)).0, Get) == (r', Received(Parse(b)))
  {
    hide Read, Uint32, Decode;
    PlanFits(r, |b|);
    var r1 := Write(r, b).0;
    var l1 := AfterWrite(r, [], Straight, |b|);
    WriteRefines(r, [], Straight, b);
    assert [] + [b] == [b] && [b][1..] == [];
    ReadRefines(r1, [b], l1);
    r' := Read(r1).0;
  }

  /** An empty 200-byte ring after k rounds of writing and reading one 64-byte frame: the first
      lap takes three frames, and from then on the third one's header stays at 128. */
  predicate Breaking(r: Ring, a: seq<byte>, k: nat) {
    && Represents(r, [], Straight) && r.Cap() == 200
    && r.tail == r.head == (if k <= 3 then 64 * k else 64 * (k - 3))
    && (k >= 3 ==> At(r.mem, 128, a))
  }

  lemma BreakingRoom(r: Ring, a: seq<byte>, k: nat)
    requires Breaking(r, a, k) && k < 5
    ensures Room(r, 64) && Headroom(r, 64)
  {
  }

  lemma BreakingStep(r: Ring, a: seq<byte>, k: nat, r': Ring)
    requires Breaking(r, a, k) && k < 5 && |a| == 64
    requires var start := if Wraps(r, 64) then 0 else r.head;
             start + 64 <= 200 && r' == Ring(Splice(r.mem, start, a), start + 64, start + 64)
    requires Represents(r', [], Straight)
    ensures Breaking(r', a, k + 1)
  {
    SpliceBytes(r.mem, if Wraps(r, 64) then 0 else r.head, a);
    if k >= 3 {
      assert r'.mem[128..192] == r.mem[128..192];
    }
  }

  lemma {:induction false} HeadroomSnoc(r: Ring, ops: seq<Op>, op: Op)
    requires Runnable(r, ops) && Runnable(r, ops + [op]) && Fits(r.Cap(), op)
    requires HeadroomThroughout(r, ops)
    requires Run(r, ops).0.Sane()
    requires op.Put? ==> Headroom(Run(r, ops).0, |op.image|)
    ensures HeadroomThroughout(r, ops + [op])
    decreases |ops|
  {
    if ops == [] {
      assert [op][1..] == [];
    } else {
      assert (ops + [op])[1..] == ops[1..] + [op];
      RunSnoc(Step(r, ops[0]).0, ops[1..], op);
      HeadroomSnoc(Step(r, ops[0]).0, ops[1..], op);
    }
  }

  /** Extending a run by one operation, on the ring and on the queue. */
  predicate Tracks(ops: seq<Op>, r: Ring, q: seq<seq<byte>>) {
    && Runnable(Created(200), ops) && HeadroomThroughout(Created(200), ops)
    && Run(Created(200), ops).0 == r
    && QueueRun([], ops).0 == q
  }

  lemma TracksSnoc(ops: seq<Op>, r: Ring, q: seq<seq<byte>>, op: Op)
    requires Tracks(ops, r, q) && r.Sane() && r.Cap() == 200 && Fits(200, op)
    requires op.Put? ==> Headroom(r, |op.image|)
    ensures Images(q)
    ensures Tracks(ops + [op], Step(r, op).0, QueueStep(q, op).0)
    ensures Run(Created(200), ops + [op]).1 == Run(Created(200), ops).1 + [Step(r, op).1]
    ensures QueueRun([], ops + [op]).1 == QueueRun([], ops).1 + [QueueStep(q, op).1]
  {
    RunSnoc(Created(200), ops, op);
    HeadroomSnoc(Created(200), ops, op);
    QueueRunSnoc([], ops, op);
  }

  lemma {:induction false} BreakingLap(a: seq<byte>, k: nat) returns (ops: seq<Op>, r: Ring)
    requires k <= 5 && IsImage(a) && |a| == 64
    ensures Breaking(r, a, k) && Tracks(ops, r, [])
    ensures Run(Created(200), ops).1 == QueueRun([], ops).1
  {
    hide Step, Uint32, Decode;
    if k == 0 {
      ops, r := [], Created(200);
    } else {
      ops, r := BreakingLap(a, k - 1);
      BreakingRoom(r, a, k - 1);
      var r' := PutGet(r, a);
      BreakingStep(r, a, k - 1, r');
      assert [] + [a] == [a] && [a][1..] == [];
      TracksSnoc(ops, r, [], Put(a));
      TracksSnoc(ops + [Put(a)], Step(r, Put(a)).0, [a], Get);
      ops, r := ops + [Put(a)] + [Get], r';
    }
  }

  /** The breaking write: accepted, but the next read returns the old frame. */
  lemma OldFrameAgain(r: Ring, a: seq<byte>, e: seq<byte>)
    requires Breaking(r, a, 5) && IsImage(a) && |a| == 64 && IsImage(e) && |e| == 73
    ensures Headroom(r, 73)
    ensures Step(r, Put(e)).1 == Accepted
    ensures Step(Step(r, Put(e)).0, Get).1 == Received(Parse(a))
  {
    hide Uint32, Decode;
    var r1 := Step(r, Put(e)).0;
    SpliceBytes(r.mem, 0, e);
    assert r1 == Ring(Splice(r.mem, 0, e), 73, 128);
    assert r1.mem[128..192] == r.mem[128..192];
    ImageReads(r1.mem, 128, a);
    ReadsImage(r1, 128, a);
  }

  /** Headroom alone is not enough: there is a run from zeroed memory on which every write has
      headroom and is accepted, but the last read returns an old frame where a queue returns the
      last one written. */
  lemma StaleHeaderBreaksFifo(a: seq<byte>, e: seq<byte>) returns (ops: seq<Op>)
    requires IsImage(a) && |a| == 64 && IsImage(e) && |e| == 73
    ensures Runnable(Created(200), ops) && HeadroomThroughout(Created(200), ops)
    ensures exists before ::
              && Run(Created(200), ops).1 == before + [Accepted, Received(Parse(a))]
              && QueueRun([], ops).1 == before + [Accepted, Received(Parse(e))]
    ensures Parse(a) != Parse(e)
  {
    hide Step, IsImage, Decode;
    var lap, r := BreakingLap(a, 5);
    OldFrameAgain(r, a, e);
    assert [] + [e] == [e];
    TracksSnoc(lap, r, [], Put(e));
    TracksSnoc(lap + [Put(e)], Step(r, Put(e)).0, [e], Get);
    ops := lap + [Put(e)] + [Get];
    var before := Run(Created(200), lap).1;
    assert Run(Created(200), ops).1 == before + [Accepted, Received(Parse(a))];
    assert QueueRun([], ops).1 == before + [Accepted, Received(Parse(e))];
    assert |Parse(a).payload| != |Parse(e).payload|;
  }
}
