/** Whole runs of the ring: first in, first out, and how much headroom that takes. */
module RingRuns {
  import opened Bytes
  import opened RingSpec
  import opened RingFifo

  datatype Op = Put(image: seq<byte>) | Get
  datatype Outcome = Accepted | Refused | Received(delivery: Delivery) | Nothing | Lost | Crashed

  predicate Fits(cap: nat, op: Op) {
    op.Put? ==> IsImage(op.image) && |op.image| <= cap
  }

  function Step(r: Ring, op: Op): (res: (Ring, Outcome))
    requires r.Sane() && Fits(r.Cap(), op)
    ensures res.0.Sane() && res.0.Cap() == r.Cap()
  {
    match op
    case Put(b) =>
      PlanFits(r, |b|);
      var (r', ok) := Write(r, b);
      (r', if ok then Accepted else Refused)
    case Get =>
      var (r', result) := Read(r);
      (r', match result
           case Empty => Nothing
           case Got(d) => Received(d)
           case Dropped => Lost
           case Panic => Crashed)
  }

  function Run(r: Ring, ops: seq<Op>): (res: (Ring, seq<Outcome>))
    requires r.Sane() && forall op :: op in ops ==> Fits(r.Cap(), op)
    decreases |ops|
  {
    if ops == [] then (r, [])
    else
      var (r1, o) := Step(r, ops[0]);
      var (r2, os) := Run(r1, ops[1..]);
      (r2, [o] + os)
  }

  /** The abstract queue the ring is meant to be. */
  function QueueStep(q: seq<seq<byte>>, op: Op): (res: (seq<seq<byte>>, Outcome))
    requires Images(q) && (op.Put? ==> IsImage(op.image))
    ensures Images(res.0)
  {
    match op
    case Put(b) => (q + [b], Accepted)
    case Get => if q == [] then (q, Nothing) else (q[1..], Received(Parse(q[0])))
  }

  function QueueRun(q: seq<seq<byte>>, ops: seq<Op>): (res: (seq<seq<byte>>, seq<Outcome>))
    requires Images(q) && forall op :: op in ops && op.Put? ==> IsImage(op.image)
    decreases |ops|
  {
    if ops == [] then (q, [])
    else
      var (q1, o) := QueueStep(q, ops[0]);
      var (q2, os) := QueueRun(q1, ops[1..]);
      (q2, [o] + os)
  }

  predicate Runnable(r: Ring, ops: seq<Op>) {
    r.Sane() && forall op :: op in ops ==> Fits(r.Cap(), op)
  }

  /** Every write in the run finds room. */
  predicate RoomThroughout(r: Ring, ops: seq<Op>)
    requires Runnable(r, ops)
    decreases |ops|
  {
    ops != [] ==>
      && (ops[0].Put? ==> Room(r, |ops[0].image|))
      && RoomThroughout(Step(r, ops[0]).0, ops[1..])
  }

  function NextLayout(r: Ring, q: seq<seq<byte>>, l: Layout, op: Op): Layout {
    match op
    case Put(b) => AfterWrite(r, q, l, |b|)
    case Get => if q == [] then l else AfterRead(l)
  }

  lemma StepRefines(r: Ring, q: seq<seq<byte>>, l: Layout, op: Op)
    requires Represents(r, q, l) && Fits(r.Cap(), op)
    requires op.Put? ==> Room(r, |op.image|)
    ensures Represents(Step(r, op).0, QueueStep(q, op).0, NextLayout(r, q, l, op))
    ensures Step(r, op).1 == QueueStep(q, op).1
  {
    match op
    case Put(b) => WriteRefines(r, q, l, b);
    case Get => ReadRefines(r, q, l);
  }

  /** On every run whose writes all find room, of any length and across any number of wraps, the ring
      answers every write and every read exactly as a FIFO queue of frames would, and ends up
      holding exactly the queue's frames. */
  lemma {:induction false} RoomRunIsFifo(r: Ring, q: seq<seq<byte>>, l: Layout, ops: seq<Op>)
    requires Represents(r, q, l) && Runnable(r, ops) && RoomThroughout(r, ops)
    ensures Run(r, ops).1 == QueueRun(q, ops).1
    ensures exists l' :: Represents(Run(r, ops).0, QueueRun(q, ops).0, l')
    decreases |ops|
  {
    if ops == [] {
      assert Represents(Run(r, ops).0, QueueRun(q, ops).0, l);
    } else {
      StepRefines(r, q, l, ops[0]);
      RoomRunIsFifo(Step(r, ops[0]).0, QueueStep(q, ops[0]).0, NextLayout(r, q, l, ops[0]), ops[1..]);
    }
  }

  // ------------------------------------------------------------------ refused writes

  /** The run without the writes that the ring refuses. */
  function Taken(r: Ring, ops: seq<Op>): (ts: seq<Op>)
    requires Runnable(r, ops)
    ensures forall op :: op in ts ==> op in ops
    decreases |ops|
  {
    if ops == [] then []
    else
      var (r1, o) := Step(r, ops[0]);
      var ts := Taken(r1, ops[1..]);
      if o == Refused then ts else [ops[0]] + ts
  }

  function Answered(os: seq<Outcome>): seq<Outcome> {
    if os == [] then []
    else if os[0] == Refused then Answered(os[1..])
    else [os[0]] + Answered(os[1..])
  }

  lemma RefusedStays(r: Ring, op: Op)
    requires r.Sane() && Fits(r.Cap(), op) && Step(r, op).1 == Refused
    ensures Step(r, op).0 == r
  {
  }

  /** A refused write leaves no trace: without the refused writes the run is the same, and then
      none is refused. */
  lemma {:induction false} RefusalsVanish(r: Ring, ops: seq<Op>)
    requires Runnable(r, ops)
    ensures Run(r, Taken(r, ops)) == (Run(r, ops).0, Answered(Run(r, ops).1))
    ensures Refused !in Run(r, Taken(r, ops)).1
    decreases |ops|
  {
    hide Step;
    if ops != [] {
      var (r1, o) := Step(r, ops[0]);
      var ts := Taken(r1, ops[1..]);
      RefusalsVanish(r1, ops[1..]);
      assert Run(r, ops).1[1..] == Run(r1, ops[1..]).1;
      if o == Refused {
        RefusedStays(r, ops[0]);
      } else {
        assert Taken(r, ops)[1..] == ts;
      }
    }
  }

  /** With room at every write none is refused. */
  lemma {:induction false} RoomTakesAll(r: Ring, q: seq<seq<byte>>, l: Layout, ops: seq<Op>)
    requires Represents(r, q, l) && Runnable(r, ops) && RoomThroughout(r, ops)
    ensures Taken(r, ops) == ops && Answered(Run(r, ops).1) == Run(r, ops).1
    decreases |ops|
  {
    hide Step;
    if ops != [] {
      StepRefines(r, q, l, ops[0]);
      RoomTakesAll(Step(r, ops[0]).0, QueueStep(q, ops[0]).0, NextLayout(r, q, l, ops[0]), ops[1..]);
      assert Run(r, ops).1[1..] == Run(Step(r, ops[0]).0, ops[1..]).1;
    }
  }

  /** The ring is a queue: on every run whose accepted writes find room, the ring answers reads and
      accepted writes as a FIFO queue that never saw the refused ones, and ends up holding exactly
      the queue's frames. */
  lemma RunIsFifo(r: Ring, q: seq<seq<byte>>, l: Layout, ops: seq<Op>)
    requires Represents(r, q, l) && Runnable(r, ops) && RoomThroughout(r, Taken(r, ops))
    ensures Answered(Run(r, ops).1) == QueueRun(q, Taken(r, ops)).1
    ensures exists l' :: Represents(Run(r, ops).0, QueueRun(q, Taken(r, ops)).0, l')
  {
    RefusalsVanish(r, ops);
    RoomRunIsFifo(r, q, l, Taken(r, ops));
  }

  lemma Regroup<T>(x: T, mid: seq<T>, y: T)
    ensures [x] + (mid + [y]) == [x] + mid + [y]
  {
  }

  lemma QueueRunOne(q: seq<seq<byte>>, op: Op)
    requires Images(q) && (op.Put? ==> IsImage(op.image))
    ensures [] + [op] == [op]
    ensures QueueRun(q, [op]) == (QueueStep(q, op).0, [] + [QueueStep(q, op).1])
  {
    assert [op][1..] == [];
    var o := QueueStep(q, op).1;
    assert [o] + [] == [] + [o];
  }

  /** A run can be extended at its end. */
  lemma {:induction false} RunSnoc(r: Ring, ops: seq<Op>, op: Op)
    requires Runnable(r, ops) && Fits(r.Cap(), op)
    ensures Run(r, ops).0.Sane() && Run(r, ops).0.Cap() == r.Cap()
    ensures Runnable(r, ops + [op])
    ensures var (r1, os) := Run(r, ops);
            var (r2, o) := Step(r1, op);
            Run(r, ops + [op]) == (r2, os + [o])
    decreases |ops|
  {
    if ops == [] {
      assert ops + [op] == [op] && [op][1..] == [];
      assert Run(r, [op]).1 == [Step(r, op).1] + [] == [] + [Step(r, op).1];
    } else {
      var (r0, o0) := Step(r, ops[0]);
      RunSnoc(r0, ops[1..], op);
      assert (ops + [op])[1..] == ops[1..] + [op];
      var (r1, os1) := Run(r0, ops[1..]);
      Regroup(o0, os1, Step(r1, op).1);
    }
  }

  lemma {:induction false} QueueRunSnoc(q: seq<seq<byte>>, ops: seq<Op>, op: Op)
    requires Images(q) && forall o :: o in ops + [op] && o.Put? ==> IsImage(o.image)
    ensures op in ops + [op] && Images(QueueRun(q, ops).0)
    ensures var (q1, os) := QueueRun(q, ops);
            var (q2, o) := QueueStep(q1, op);
            QueueRun(q, ops + [op]) == (q2, os + [o])
    decreases |ops|
  {
    assert op in ops + [op];
    if ops == [] {
      QueueRunOne(q, op);
    } else {
      assert ops[0] in ops + [op];
      assert (ops + [op])[1..] == ops[1..] + [op];
      var (q0, o0) := QueueStep(q, ops[0]);
      QueueRunSnoc(q0, ops[1..], op);
      var (q1, os1) := QueueRun(q0, ops[1..]);
      Regroup(o0, os1, QueueStep(q1, op).1);
    }
  }

  // ------------------------------------------------------------------ headroom

  /** Twice the frame must fit in what GetMetrics reports as free. */
  predicate Headroom(r: Ring, n: nat)
    requires r.Sane()
  {
    Buffered(r.Cap(), r.head, r.tail) + 2 * n <= r.Cap()
  }

  lemma HeadroomGivesRoom(r: Ring, n: nat)
    requires r.Sane() && n > 0 && Headroom(r, n)
    requires Wraps(r, n) && r.tail <= r.head ==> SkipSeen(r.mem, r.head)
    ensures Room(r, n)
  {
  }

  /** Headroom is the weakest condition that looks at occupancy alone: a frame of n bytes has room
      at every pair of indices with that occupancy if and only if there is headroom. */
  lemma HeadroomTight(cap: nat, used: nat, n: nat)
    requires used <= cap && 0 < n
    ensures (forall head: nat, tail: nat ::
               head <= cap && tail <= cap && Buffered(cap, head, tail) == used
               ==> IndexRoom(cap, head, tail, n))
            <==> used + 2 * n <= cap
  {
    if used + 2 * n > cap {
      var tail := if n <= cap - used then n else cap - used;
      assert Buffered(cap, tail + used, tail) == used;
      assert !IndexRoom(cap, tail + used, tail, n);
    }
  }

  /** Without headroom even an empty ring can refuse a frame for ever: when the frame fits neither
      behind the indices nor in front of them, no number of retries and reads moves the ring. */
  lemma {:induction false} EmptyRingStuck(r: Ring, ops: seq<Op>)
    requires Represents(r, [], Straight) && Runnable(r, ops)
    requires forall op :: op in ops && op.Put? ==> |op.image| > r.head && Wraps(r, |op.image|)
    ensures Run(r, ops).0 == r
    ensures |Run(r, ops).1| == |ops|
    ensures forall i :: 0 <= i < |ops| ==>
              Run(r, ops).1[i] == if ops[i].Put? then Refused else Nothing
    decreases |ops|
  {
    if ops != [] {
      assert ops[0] in ops;
      if ops[0].Put? {
        PlanFits(r, |ops[0].image|);
      }
      assert Step(r, ops[0]) == (r, if ops[0].Put? then Refused else Nothing);
      EmptyRingStuck(r, ops[1..]);
    }
  }
}
