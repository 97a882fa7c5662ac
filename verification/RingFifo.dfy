/** The ring as a queue: single steps. */
module RingFifo {
  import opened Bytes
  import opened FrameMeta
  import opened RingSpec

  // ------------------------------------------------------------------ pieces of a step

  /** Addresses whose bytes the reader still depends on: the live frames and the magic number
      it probes at the skip point. */
  predicate Live(r: Ring, l: Layout, a: int) {
    match l
    case Straight => r.tail <= a < r.head
    case Wrapped(skip, _) =>
      || r.tail <= a < skip || 0 <= a < r.head
      || (skip <= a < skip + 4 && skip + METADATA_SIZE <= r.Cap())
  }

  lemma Untouched(r: Ring, mem': seq<byte>, q: seq<seq<byte>>, l: Layout)
    requires Represents(r, q, l) && |mem'| == |r.mem|
    requires forall a :: 0 <= a < r.Cap() && Live(r, l, a) ==> mem'[a] == r.mem[a]
    ensures Represents(r.(mem := mem'), q, l)
  {
    hide Uint32;
    match l
    case Straight =>
      TilesKept(r.mem, mem', r.tail, r.head, q);
    case Wrapped(skip, lap) =>
      TilesKept(r.mem, mem', r.tail, skip, q[..lap]);
      TilesKept(r.mem, mem', 0, r.head, q[lap..]);
      if skip + METADATA_SIZE <= r.Cap() {
        assert mem'[skip..skip + 4] == r.mem[skip..skip + 4];
      }
  }

  lemma CommitAhead(r: Ring, q: seq<seq<byte>>, l: Layout, b: seq<byte>)
    requires Represents(r, q, l) && IsImage(b) && At(r.mem, r.head, b)
    requires l.Wrapped? ==> r.head + |b| < r.tail
    ensures Represents(r.(head := r.head + |b|), q + [b], l)
  {
    hide Uint32;
    match l
    case Straight =>
      TilesAppend(r.mem, r.tail, r.head, q, b);
    case Wrapped(skip, lap) =>
      TilesAppend(r.mem, 0, r.head, q[lap..], b);
      assert (q + [b])[..lap] == q[..lap] && (q + [b])[lap..] == q[lap..] + [b];
  }

  lemma CommitWrap(r: Ring, q: seq<seq<byte>>, b: seq<byte>)
    requires Represents(r, q, Straight) && IsImage(b) && At(r.mem, 0, b)
    requires |b| < r.tail && SkipSeen(r.mem, r.head)
    ensures Represents(r.(head := |b|), q + [b], Wrapped(r.head, |q|))
  {
    assert (q + [b])[..|q|] == q && (q + [b])[|q|..] == [b];
    assert [b][1..] == [];
    assert Tiles(r.mem, 0, |b|, [b]);
  }

  /** Where the front frame lies. */
  function Front(r: Ring, l: Layout): nat {
    if l.Wrapped? && l.lap == 0 then 0 else r.tail
  }

  function AfterRead(l: Layout): Layout {
    match l
    case Straight => Straight
    case Wrapped(skip, lap) => if lap == 0 then Straight else Wrapped(skip, lap - 1)
  }

  function AfterWrite(r: Ring, q: seq<seq<byte>>, l: Layout, n: nat): Layout {
    if r.tail <= r.head && r.head + n > r.Cap() then Wrapped(r.head, |q|) else l
  }

  lemma Consume(r: Ring, q: seq<seq<byte>>, l: Layout)
    requires Represents(r, q, l) && q != []
    ensures r.tail != r.head
    ensures At(r.mem, Front(r, l), q[0])
    ensures Represents(r.(tail := Front(r, l) + |q[0]|), q[1..], AfterRead(l))
  {
    hide Tiles, Uint32;
    match l
    case Straight =>
      ConsumeStraight(r, q);
    case Wrapped(skip, lap) =>
      if lap == 0 {
        ConsumeSecondLap(r, q, skip);
      } else {
        ConsumeFirstLap(r, q, skip, lap);
      }
  }

  lemma ConsumeStraight(r: Ring, q: seq<seq<byte>>)
    requires Represents(r, q, Straight) && q != []
    ensures At(r.mem, r.tail, q[0]) && r.tail < r.head
    ensures Represents(r.(tail := r.tail + |q[0]|), q[1..], Straight)
  {
    TilesSize(r.mem, r.tail, r.head, q);
    TilesSize(r.mem, r.tail + |q[0]|, r.head, q[1..]);
  }

  lemma ConsumeSecondLap(r: Ring, q: seq<seq<byte>>, skip: nat)
    requires Represents(r, q, Wrapped(skip, 0))
    ensures At(r.mem, 0, q[0])
    ensures Represents(r.(tail := |q[0]|), q[1..], Straight)
  {
    assert q[0..] == q;
    TilesSize(r.mem, |q[0]|, r.head, q[1..]);
  }

  lemma ConsumeFirstLap(r: Ring, q: seq<seq<byte>>, skip: nat, lap: nat)
    requires Represents(r, q, Wrapped(skip, lap)) && lap > 0
    ensures At(r.mem, r.tail, q[0])
    ensures Represents(r.(tail := r.tail + |q[0]|), q[1..], Wrapped(skip, lap - 1))
  {
    var first := q[..lap];
    assert first[0] == q[0] && first[1..] == q[1..][..lap - 1];
    assert q[1..][lap - 1..] == q[lap..];
    TilesSize(r.mem, r.tail + |q[0]|, skip, first[1..]);
  }

  /** The reader settles on the front frame, whatever lies at the place it probes first. */
  lemma ProbeFinds(r: Ring, q: seq<seq<byte>>, l: Layout)
    requires Represents(r, q, l) && q != []
    ensures var first := ProbeStart(r.Cap(), r.tail);
            && MagicAt(r.mem, Front(r, l)) == MAGIC_NUMBER
            && (first == Front(r, l)
                || (Front(r, l) == 0 && first == r.tail && l == Wrapped(r.tail, 0)
                    && first + METADATA_SIZE <= r.Cap()
                    && MagicAt(r.mem, first) != MAGIC_NUMBER))
  {
    hide Tiles, Parse, Decode;
    Consume(r, q, l);
    ImageReads(r.mem, Front(r, l), q[0]);
    if l.Wrapped? && l.lap == 0 {
      TilesSize(r.mem, r.tail, l.skip, q[..0]);
    }
  }

  // ------------------------------------------------------------------ single steps

  lemma WriteAhead(r: Ring, q: seq<seq<byte>>, l: Layout, b: seq<byte>)
    requires Represents(r, q, l) && IsImage(b)
    requires if l.Straight? then r.head + |b| <= r.Cap() else r.head + |b| < r.tail
    ensures r.head + |b| <= r.Cap()
    ensures var mem' := Splice(r.mem, r.head, b);
            Represents(Ring(mem', r.head + |b|, r.tail), q + [b], l)
  {
    hide Uint32;
    SpliceBytes(r.mem, r.head, b);
    var mem' := Splice(r.mem, r.head, b);
    Untouched(r, mem', q, l);
    CommitAhead(r.(mem := mem'), q, l, b);
  }

  lemma WriteWrapped(r: Ring, q: seq<seq<byte>>, b: seq<byte>)
    requires Represents(r, q, Straight) && IsImage(b)
    requires |b| < r.tail && SkipSeen(r.mem, r.head)
    ensures var mem' := Splice(r.mem, 0, b);
            Represents(Ring(mem', |b|, r.tail), q + [b], Wrapped(r.head, |q|))
  {
    hide Uint32;
    SpliceBytes(r.mem, 0, b);
    var mem' := Splice(r.mem, 0, b);
    Untouched(r, mem', q, Straight);
    if r.head + METADATA_SIZE <= r.Cap() {
      assert mem'[r.head..r.head + 4] == r.mem[r.head..r.head + 4];
    }
    CommitWrap(r.(mem := mem'), q, b);
  }

  /** With room, a write is accepted and appends exactly the frame. */
  lemma WriteRefines(r: Ring, q: seq<seq<byte>>, l: Layout, b: seq<byte>)
    requires Represents(r, q, l) && IsImage(b) && |b| <= r.Cap() && Room(r, |b|)
    ensures Write(r, b).1
    ensures Represents(Write(r, b).0, q + [b], AfterWrite(r, q, l, |b|))
  {
    hide Uint32, Splice;
    PlanFits(r, |b|);
    if r.head + |b| <= r.Cap() {
      WriteAhead(r, q, l, b);
    } else {
      WriteWrapped(r, q, b);
    }
  }

  /** With room, a write touches no byte the reader still depends on. */
  lemma WriteLeavesLive(r: Ring, q: seq<seq<byte>>, l: Layout, b: seq<byte>)
    requires Represents(r, q, l) && IsImage(b) && |b| <= r.Cap() && Room(r, |b|)
    ensures forall a :: 0 <= a < r.Cap() && Live(r, l, a) ==> Write(r, b).0.mem[a] == r.mem[a]
  {
    PlanFits(r, |b|);
    var plan := WritePlan(r.Cap(), r.head, r.tail, |b|);
    if plan.Place? {
      SpliceBytes(r.mem, plan.start, b);
    }
  }

  /** A read of an empty queue changes nothing; otherwise it returns exactly the front frame and
      removes it. */
  lemma ReadRefines(r: Ring, q: seq<seq<byte>>, l: Layout)
    requires Represents(r, q, l)
    ensures q == [] ==> Read(r) == (r, Empty)
    ensures q != [] ==> Read(r).1 == Got(Parse(q[0]))
    ensures q != [] ==> Represents(Read(r).0, q[1..], AfterRead(l))
    ensures q != [] ==> Read(r).0 == r.(tail := Front(r, l) + |q[0]|)
  {
    hide Uint32, Decode;
    if q != [] {
      Consume(r, q, l);
      ProbeFinds(r, q, l);
      ReadsImage(r, Front(r, l), q[0]);
    }
  }

  lemma ReadsImage(r: Ring, pos: nat, b: seq<byte>)
    requires r.Sane() && At(r.mem, pos, b) && IsImage(b)
    ensures ReadFrameAt(r, pos) == (r.(tail := pos + |b|), Got(Parse(b)))
  {
    hide Decode;
    ImageReads(r.mem, pos, b);
  }

  lemma SameSkip(mem: seq<byte>, mem': seq<byte>, s: nat)
    requires s <= |mem| == |mem'| && forall i :: s <= i < |mem| ==> mem'[i] == mem[i]
    ensures SkipSeen(mem, s) == SkipSeen(mem', s)
  {
    if s + METADATA_SIZE <= |mem| {
      assert mem'[s..s + 4] == mem[s..s + 4];
    }
  }
}
