/** How exact the room condition is, told by what a reader gets: an accepted write keeps the queue
    readable if and only if there was room. */
module RingExact {
  import opened Bytes
  import opened FrameMeta
  import opened RingSpec
  import opened RingFifo
  import opened RingRuns
  import opened RingLaps

  /** Reads return exactly these frames, in order, and then find the ring empty. */
  predicate DrainsTo(r: Ring, q: seq<seq<byte>>)
    requires r.Sane() && Images(q)
    decreases |q|
  {
    var (r', res) := Read(r);
    if q == [] then (r', res) == (r, Empty)
    else res == Got(Parse(q[0])) && DrainsTo(r', q[1..])
  }

  lemma {:induction false} HeldDrains(r: Ring, q: seq<seq<byte>>, l: Layout)
    requires Represents(r, q, l)
    ensures DrainsTo(r, q)
    decreases |q|
  {
    ReadRefines(r, q, l);
    if q != [] {
      HeldDrains(Read(r).0, q[1..], AfterRead(l));
    }
  }

  // ------------------------------------------------------------------ what cannot drain

  lemma LooksEmpty(r: Ring, q: seq<seq<byte>>)
    requires r.Sane() && Images(q) && r.tail == r.head && q != []
    ensures !DrainsTo(r, q)
  {
  }

  /** A ring that looks empty after one read has lost every frame but the first. */
  lemma EmptyAfterOne(r: Ring, q: seq<seq<byte>>)
    requires r.Sane() && Images(q) && |q| >= 2 && Read(r).0.tail == Read(r).0.head
    ensures !DrainsTo(r, q)
  {
    if Read(r).1.Got? {
      LooksEmpty(Read(r).0, q[1..]);
    }
  }

  lemma EmptyOnlyAtHead(r: Ring)
    requires r.Sane() && r.tail != r.head
    ensures !Read(r).1.Empty?
  {
  }

  lemma StaleOutcome(r: Ring)
    requires r.Sane() && r.head < r.tail
    requires r.tail + METADATA_SIZE <= r.Cap() && MagicAt(r.mem, r.tail) == MAGIC_NUMBER
    ensures Read(r).0.Sane()
    ensures Read(r).1.Got? ==> Read(r).0.head < Read(r).0.tail
  {
    hide Uint32, Decode;
    assert Read(r) == ReadFrameAt(r, r.tail);
  }

  /** Where a magic number stands at a tail beyond head, the reader takes it for a frame, and no
      read of it ends before the tail. */
  lemma StaleRead(r: Ring, b: seq<byte>)
    requires r.Sane() && IsImage(b) && r.head < r.tail
    requires r.tail + METADATA_SIZE <= r.Cap() && MagicAt(r.mem, r.tail) == MAGIC_NUMBER
    ensures !DrainsTo(r, [b])
  {
    hide Read, Parse;
    StaleOutcome(r);
    assert [b][1..] == [];
    if Read(r).1.Got? {
      EmptyOnlyAtHead(Read(r).0);
    }
  }

  /** The frames on the first lap come out one by one, whatever lies behind them. */
  lemma {:induction false} FirstLapDrains(
      r: Ring, to: nat, lap: seq<seq<byte>>, rest: seq<seq<byte>>)
    requires r.Sane() && Images(lap) && Images(rest) && r.head < r.tail
    requires Tiles(r.mem, r.tail, to, lap)
    ensures r.tail <= to <= r.Cap()
    ensures Images(lap + rest)
    ensures DrainsTo(r, lap + rest) <==> DrainsTo(r.(tail := to), rest)
    decreases |lap|
  {
    hide Read, Parse, IsImage;
    TilesSize(r.mem, r.tail, to, lap);
    if lap == [] {
      assert lap + rest == rest;
    } else {
      FirstLapRead(r, lap[0]);
      FirstLapDrains(r.(tail := r.tail + |lap[0]|), to, lap[1..], rest);
      assert (lap + rest)[1..] == lap[1..] + rest;
    }
  }

  lemma FirstLapRead(r: Ring, b: seq<byte>)
    requires r.Sane() && IsImage(b) && r.head < r.tail && At(r.mem, r.tail, b)
    ensures Read(r) == (r.(tail := r.tail + |b|), Got(Parse(b)))
  {
    hide Uint32, Decode;
    ImageBytes(r.mem, r.tail, b);
    ReadsImage(r, r.tail, b);
  }

  // ------------------------------------------------------------------ accepted without room

  /** The old frames, and then an old header where they end. */
  lemma OntoOldHeader(r: Ring, q: seq<seq<byte>>, b: seq<byte>)
    requires Represents(r, q, Straight) && IsImage(b) && |b| < r.tail && |b| <= r.Cap()
    requires !SkipSeen(r.mem, r.head)
    ensures var r' := Ring(Splice(r.mem, 0, b), |b|, r.tail);
            !DrainsTo(r', q + [b])
  {
    hide Read, Parse, Uint32;
    var r' := Ring(Splice(r.mem, 0, b), |b|, r.tail);
    SpliceBytes(r.mem, 0, b);
    TilesKept(r.mem, r'.mem, r.tail, r.head, q);
    FirstLapDrains(r', r.head, q, [b]);
    assert r'.mem[r.head..r.head + 4] == r.mem[r.head..r.head + 4];
    StaleRead(r'.(tail := r.head), b);
  }

  /** The first frame is the new one, and after it the ring looks empty. */
  lemma OverUnread(r: Ring, q: seq<seq<byte>>)
    requires r.Sane() && Images(q) && |q| >= 2 && r.tail == 0 < r.head
    requires IsImage(q[|q| - 1]) && At(r.mem, 0, q[|q| - 1]) && r.head == |q[|q| - 1]|
    ensures !DrainsTo(r, q)
  {
    var b := q[|q| - 1];
    ImageBytes(r.mem, 0, b);
    ReadsImage(r, 0, b);
    EmptyAfterOne(r, q);
  }

  /** The first lap's frames, and then only the new one of all those on the second lap. */
  lemma SecondWrap(r: Ring, q: seq<seq<byte>>, skip: nat, lap: nat, b: seq<byte>)
    requires Represents(r, q, Wrapped(skip, lap)) && IsImage(b) && |b| < r.tail
    ensures var r' := Ring(Splice(r.mem, 0, b), |b|, r.tail);
            !DrainsTo(r', q + [b])
  {
    hide Read, Parse, DrainsTo, Uint32;
    var r' := Ring(Splice(r.mem, 0, b), |b|, r.tail);
    SpliceBytes(r.mem, 0, b);
    TilesKept(r.mem, r'.mem, r.tail, skip, q[..lap]);
    var rest := q[lap..] + [b];
    FirstLapDrains(r', skip, q[..lap], rest);
    assert q[..lap] + rest == q + [b];
    var r1 := r'.(tail := skip);
    SameSkip(r.mem, r'.mem, skip);
    SkipsToFront(r1, b);
    EmptyAfterOne(r1, rest);
  }

  lemma SkipsToFront(r: Ring, b: seq<byte>)
    requires r.Sane() && IsImage(b) && At(r.mem, 0, b)
    requires r.head == |b| < r.tail && SkipSeen(r.mem, r.tail)
    ensures Read(r) == (r.(tail := |b|), Got(Parse(b)))
  {
    hide Uint32, Decode;
    ImageBytes(r.mem, 0, b);
    ReadsImage(r, 0, b);
  }

  lemma WrappedWithoutRoom(r: Ring, q: seq<seq<byte>>, l: Layout, b: seq<byte>)
    requires Represents(r, q, l) && IsImage(b) && |b| <= r.Cap()
    requires Write(r, b).1 && r.head + |b| > r.Cap() && !Room(r, |b|)
    ensures !DrainsTo(Write(r, b).0, q + [b])
  {
    hide Read, Parse, DrainsTo, Uint32;
    PlanFits(r, |b|);
    var r' := Write(r, b).0;
    SpliceBytes(r.mem, 0, b);
    if |b| == r.tail {
      LooksEmpty(r', q + [b]);
    } else {
      match l
      case Straight =>
        if r.tail == 0 {
          assert q != [];
          OverUnread(r', q + [b]);
        } else {
          OntoOldHeader(r, q, b);
        }
      case Wrapped(skip, lap) => SecondWrap(r, q, skip, lap, b);
    }
  }

  /** A full ring that looks empty, a wrap over an unread start, a second wrap, a wrap onto an old
      header: after each of them the reader does not get the queue. */
  lemma AcceptedNeedsRoom(r: Ring, q: seq<seq<byte>>, l: Layout, b: seq<byte>)
    requires Represents(r, q, l) && IsImage(b) && |b| <= r.Cap()
    requires Write(r, b).1
    ensures DrainsTo(Write(r, b).0, q + [b]) ==> Room(r, |b|)
  {
    hide Read, Parse, DrainsTo;
    PlanFits(r, |b|);
    if !Room(r, |b|) {
      if r.head + |b| <= r.Cap() {
        LooksEmpty(Write(r, b).0, q + [b]);
      } else {
        WrappedWithoutRoom(r, q, l, b);
      }
    }
  }

  /** The write path's law, on every state and frame: after an accepted write the reader gets the
      old queue and then the new frame if and only if there was room; and exactly then the ring
      represents that queue. */
  lemma WriteExact(r: Ring, q: seq<seq<byte>>, l: Layout, b: seq<byte>)
    requires Represents(r, q, l) && IsImage(b) && |b| <= r.Cap() && Write(r, b).1
    ensures DrainsTo(Write(r, b).0, q + [b]) <==> Room(r, |b|)
    ensures (exists l' :: Represents(Write(r, b).0, q + [b], l')) <==> Room(r, |b|)
  {
    hide Read, Parse, DrainsTo;
    if Room(r, |b|) {
      WriteRefines(r, q, l, b);
    }
    forall l' | Represents(Write(r, b).0, q + [b], l')
      ensures DrainsTo(Write(r, b).0, q + [b])
    {
      HeldDrains(Write(r, b).0, q + [b], l');
    }
    AcceptedNeedsRoom(r, q, l, b);
  }

  // ------------------------------------------------------------------ reads of any bytes

  /** What a read of any bytes does to the ring: it writes nothing and leaves head alone; it finds
      nothing exactly when the indices are equal; when it drops, the ring is an empty queue again; a
      crash leaves the tail where it was. */
  lemma ReadLeavesRing(r: Ring)
    requires r.Sane()
    ensures Read(r).0.mem == r.mem && Read(r).0.head == r.head
    ensures Read(r).1.Empty? <==> r.tail == r.head
    ensures Read(r).1.Dropped? ==> Represents(Read(r).0, [], Straight)
    ensures Read(r).1.Panic? || Read(r).1.Empty? ==> Read(r).0 == r
  {
    hide Decode, Uint32;
  }

  /** Once a magic number is found at pos, the announced size alone decides: past 32 bits the reader
      crashes, past the buffer it drops, otherwise it delivers those bytes. */
  lemma OutcomeBySize(r: Ring, pos: nat)
    requires r.Sane() && pos + METADATA_SIZE <= r.Cap()
    ensures var end := pos + METADATA_SIZE + Decode(r.mem[pos..pos + METADATA_SIZE]).frameSize;
            match ReadFrameAt(r, pos).1
            case Panic => end >= 0x1_0000_0000
            case Dropped => r.Cap() < end < 0x1_0000_0000
            case Got(d) =>
              end <= r.Cap() && ReadFrameAt(r, pos).0 == r.(tail := end)
              && d.payload == r.mem[pos + METADATA_SIZE..end]
              && d.meta == Decode(r.mem[pos..pos + METADATA_SIZE])
            case Empty => false
  {
    hide Decode;
  }

  /** The reader drops or goes on by what stands where it looks: it gives up exactly when neither the
      place it probes nor offset 0 has the magic number, or the frame it found does not fit. */
  lemma DropsExactly(r: Ring)
    requires r.Sane() && r.tail != r.head
    ensures var first := if r.tail + METADATA_SIZE > r.Cap() then 0 else r.tail;
            var pos := if MagicAt(r.mem, first) == MAGIC_NUMBER then first else 0;
            Read(r) == if MagicAt(r.mem, pos) == MAGIC_NUMBER then ReadFrameAt(r, pos)
                       else (r.(tail := r.head), Dropped)
  {
    hide Decode, Uint32, ReadFrameAt;
  }

  // ------------------------------------------------------------------ an input

  /** What a run from zeroed memory has come to: the ring, its answers, and what a queue would hold. */
  predicate Reaches(ops: seq<Op>, r: Ring, outs: seq<Outcome>, q: seq<seq<byte>>) {
    Runnable(Created(200), ops) && Run(Created(200), ops) == (r, outs) && QueueRun([], ops).0 == q
  }

  lemma ReachesSnoc(ops: seq<Op>, r: Ring, outs: seq<Outcome>, q: seq<seq<byte>>, op: Op)
    requires Reaches(ops, r, outs, q) && r.Sane() && Fits(r.Cap(), op) && Fits(200, op)
    ensures Images(q)
    ensures Reaches(ops + [op], Step(r, op).0, outs + [Step(r, op).1], QueueStep(q, op).0)
  {
    RunSnoc(Created(200), ops, op);
    QueueRunSnoc([], ops, op);
  }

  lemma PutMoves(r: Ring, a: seq<byte>)
    requires r.Sane() && r.Cap() == 200 && IsImage(a) && |a| == 64
    requires r.tail == 64 && r.head in {64, 128, 192}
    ensures Step(r, Put(a)).1 == Accepted
    ensures var r' := Step(r, Put(a)).0;
            r'.Sane() && r'.Cap() == 200 && r'.tail == 64
            && r'.head == if r.head == 192 then 64 else r.head + 64
  {
  }

  lemma NothingThere(r: Ring)
    requires r.Sane() && r.tail == r.head
    ensures Step(r, Get) == (r, Nothing)
  {
  }

  /** A frame that ends exactly at the tail, on a 200-byte ring: every write is accepted, and the last
      read finds nothing with three frames unread. */
  lemma FullRingLooksEmpty(a: seq<byte>)
    requires IsImage(a) && |a| == 64
    ensures var ops := [Put(a)] + [Get] + [Put(a)] + [Put(a)] + [Put(a)];
            && Runnable(Created(200), ops + [Get])
            && Run(Created(200), ops + [Get]).1
               == [Accepted] + [Received(Parse(a))] + [Accepted] + [Accepted] + [Accepted] + [Nothing]
            && QueueRun([], ops).0 == [a] + [a] + [a]
  {
    hide Read, Write, Parse, Decode, IsImage;
    var r0 := Created(200);
    var r2 := PutGet(r0, a);
    assert [] + [Put(a)] == [Put(a)] && [] + [a] == [a] && [a][1..] == [];
    assert [] + [Outcome.Accepted] == [Accepted];
    ReachesSnoc([], r0, [], [], Put(a));
    ReachesSnoc([Put(a)], Step(r0, Put(a)).0, [Accepted], [a], Get);
    var ops, outs := [Put(a)] + [Get], [Accepted] + [Received(Parse(a))];
    PutMoves(r2, a);
    ReachesSnoc(ops, r2, outs, [], Put(a));
    var r3 := Step(r2, Put(a)).0;
    PutMoves(r3, a);
    ReachesSnoc(ops + [Put(a)], r3, outs + [Accepted], [a], Put(a));
    var r4 := Step(r3, Put(a)).0;
    PutMoves(r4, a);
    ReachesSnoc(ops + [Put(a)] + [Put(a)], r4, outs + [Accepted] + [Accepted], [a] + [a], Put(a));
    var r5 := Step(r4, Put(a)).0;
    NothingThere(r5);
    ReachesSnoc(ops + [Put(a)] + [Put(a)] + [Put(a)], r5,
                outs + [Accepted] + [Accepted] + [Accepted], [a] + [a] + [a], Get);
  }
}
