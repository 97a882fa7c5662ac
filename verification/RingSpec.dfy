/** The frame ring as a value: memory and two indices, the writer's and the reader's step,
    and what it means for a ring to hold a queue of frames. */
module RingSpec {
  import opened Bytes
  import opened FrameMeta

  /** What the reader hands on for one frame. */
  datatype Delivery = Delivery(meta: FrameMetadata, payload: seq<byte>)

  /** A frame image: a header with the magic number, then as many bytes as the header says. */
  predicate IsImage(b: seq<byte>) {
    && |b| >= METADATA_SIZE
    && Uint32(b[0..4]) == MAGIC_NUMBER
    && |b| == METADATA_SIZE + Uint32(b[4..8])
  }

  function Parse(b: seq<byte>): Delivery
    requires |b| >= METADATA_SIZE
  {
    Delivery(Decode(b[..METADATA_SIZE]), b[METADATA_SIZE..])
  }

  lemma HeaderThenPayload(h: seq<byte>, payload: seq<byte>)
    requires |h| == METADATA_SIZE
    ensures IsImage(h + payload)
            <==> Decode(h).magic == MAGIC_NUMBER && Decode(h).frameSize == |payload|
    ensures Parse(h + payload) == Delivery(Decode(h), payload)
  {
    var b := h + payload;
    assert b[..METADATA_SIZE] == h && b[METADATA_SIZE..] == payload;
    assert b[0..4] == h[0..4] && b[4..8] == h[4..8];
  }

  /** The writer's header struct and payload make a frame image exactly when the magic number is
      set and the header's size is the payload's; the reader then gets back both. */
  lemma WrittenFrameIsImage(meta: FrameMetadata, pad: Padding, payload: seq<byte>)
    ensures IsImage(Header(meta, pad) + payload)
            <==> meta.magic == MAGIC_NUMBER && meta.frameSize == |payload|
    ensures Parse(Header(meta, pad) + payload) == Delivery(meta, payload)
  {
    HeaderRoundTrip(meta, pad);
    HeaderThenPayload(Header(meta, pad), payload);
  }

  datatype Ring = Ring(mem: seq<byte>, head: nat, tail: nat) {
    function Cap(): nat {
      |mem|
    }

    /** Room for one header, both indices in the buffer, and index sums that fit in 32 bits. */
    predicate Sane() {
      METADATA_SIZE <= Cap() < 0x8000_0000 && head <= Cap() && tail <= Cap()
    }
  }

  // ------------------------------------------------------------------ writer

  datatype Plan = Full | Place(start: nat, next: u32)

  /** Where the writer puts n bytes, from the indices it loaded. */
  function WritePlan(cap: nat, head: nat, tail: nat, n: nat): Plan {
    var ahead := U32(head + n);
    var wrapped := ahead > cap;
    var next := if wrapped then U32(n) else ahead;
    var start := if wrapped then 0 else head;
    if start < tail && next > tail then Full else Place(start, next)
  }

  function Splice(mem: seq<byte>, start: nat, bs: seq<byte>): (mem': seq<byte>)
    requires start + |bs| <= |mem|
    ensures |mem'| == |mem|
  {
    mem[..start] + bs + mem[start + |bs|..]
  }

  lemma SpliceBytes(mem: seq<byte>, start: nat, bs: seq<byte>)
    requires start + |bs| <= |mem|
    ensures var mem' := Splice(mem, start, bs);
            && mem'[start..start + |bs|] == bs
            && forall i :: 0 <= i < |mem| && !(start <= i < start + |bs|) ==> mem'[i] == mem[i]
  {
  }

  lemma PlanFits(r: Ring, n: nat)
    requires r.Sane() && METADATA_SIZE <= n <= r.Cap()
    ensures var p := WritePlan(r.Cap(), r.head, r.tail, n);
            && (p.Place? ==> p.start + n == p.next <= r.Cap())
            && (p.Place? && p.start != r.head ==> p.start == 0 && r.head + n > r.Cap())
            && (r.head + n <= r.Cap() && p.Place? ==> p.start == r.head)
  {
  }

  /** One whole write. A refused write changes nothing. */
  function Write(r: Ring, b: seq<byte>): (Ring, bool)
    requires r.Sane() && METADATA_SIZE <= |b| <= r.Cap()
  {
    PlanFits(r, |b|);
    match WritePlan(r.Cap(), r.head, r.tail, |b|)
    case Full => (r, false)
    case Place(start, next) => (Ring(Splice(r.mem, start, b), next, r.tail), true)
  }

  // ------------------------------------------------------------------ reader

  /** Panic is Go's slice-bounds panic: a corrupt frame size makes the 32-bit end wrap below start. */
  datatype ReadResult = Empty | Got(delivery: Delivery) | Dropped | Panic

  function MagicAt(mem: seq<byte>, pos: nat): u32
    requires pos + 4 <= |mem|
  {
    Uint32(mem[pos..pos + 4])
  }

  /** Where the reader looks for the next header, before it looks at any byte. */
  function ProbeStart(cap: nat, tail: nat): nat {
    if U32(tail + METADATA_SIZE) > cap then 0 else tail
  }

  /** One whole read. */
  function Read(r: Ring): (Ring, ReadResult)
    requires r.Sane()
  {
    if r.tail == r.head then (r, Empty)
    else
      var first := ProbeStart(r.Cap(), r.tail);
      var pos := if MagicAt(r.mem, first) != MAGIC_NUMBER then 0 else first;
      if MagicAt(r.mem, pos) != MAGIC_NUMBER then (r.(tail := r.head), Dropped)
      else ReadFrameAt(r, pos)
  }

  function ReadFrameAt(r: Ring, pos: nat): (Ring, ReadResult)
    requires r.Sane() && pos + METADATA_SIZE <= r.Cap()
  {
    var meta := Decode(r.mem[pos..pos + METADATA_SIZE]);
    var start := pos + METADATA_SIZE;
    var end := U32(start + meta.frameSize);
    if end > r.Cap() then (r.(tail := r.head), Dropped)
    else if end < start then (r, Panic)
    else (r.(tail := end), Got(Delivery(meta, r.mem[start..end])))
  }

  /** GetMetrics' bytesBuffered. */
  function Buffered(cap: nat, head: nat, tail: nat): nat
    requires head <= cap && tail <= cap
  {
    if head >= tail then head - tail else (cap - tail) + head
  }

  // ------------------------------------------------------------------ what a ring holds

  predicate At(mem: seq<byte>, pos: nat, b: seq<byte>) {
    pos + |b| <= |mem| && mem[pos..pos + |b|] == b
  }

  /** The images of q lie back to back on [from, to). */
  predicate Tiles(mem: seq<byte>, from: nat, to: nat, q: seq<seq<byte>>)
    decreases |q|
  {
    if q == [] then from == to
    else At(mem, from, q[0]) && Tiles(mem, from + |q[0]|, to, q[1..])
  }

  /** Straight: live frames on [tail, head). Wrapped: the first lap live frames on [tail, skip),
      the rest on [0, head). */
  datatype Layout = Straight | Wrapped(skip: nat, lap: nat)

  /** A reader that arrives at s moves on to offset 0. */
  predicate SkipSeen(mem: seq<byte>, s: nat)
    requires s <= |mem|
  {
    s + METADATA_SIZE > |mem| || MagicAt(mem, s) != MAGIC_NUMBER
  }

  predicate Images(q: seq<seq<byte>>) {
    forall i :: 0 <= i < |q| ==> IsImage(q[i])
  }

  predicate Represents(r: Ring, q: seq<seq<byte>>, l: Layout) {
    && r.Sane()
    && Images(q)
    && match l
       case Straight => r.tail <= r.head && Tiles(r.mem, r.tail, r.head, q)
       case Wrapped(skip, lap) =>
         && lap < |q| && r.head < r.tail <= skip <= r.Cap()
         && Tiles(r.mem, r.tail, skip, q[..lap]) && Tiles(r.mem, 0, r.head, q[lap..])
         && SkipSeen(r.mem, skip)
  }

  /** n bytes fit in the free range: beyond head, or in front of the tail, which they must not
      reach because equal indices mean empty. */
  predicate IndexRoom(cap: nat, head: nat, tail: nat, n: nat) {
    if tail <= head then head + n <= cap || n < tail else head + n < tail
  }

  predicate Wraps(r: Ring, n: nat) {
    r.head + n > r.Cap()
  }

  /** The exact acceptance condition: the frame fits in the free range, and if it wraps, no old
      header lies at the place it skips. */
  predicate Room(r: Ring, n: nat)
    requires r.Sane()
  {
    IndexRoom(r.Cap(), r.head, r.tail, n) && (Wraps(r, n) ==> SkipSeen(r.mem, r.head))
  }

  function TotalSize(q: seq<seq<byte>>): nat {
    if q == [] then 0 else |q[0]| + TotalSize(q[1..])
  }

  // ------------------------------------------------------------------ tiling lemmas

  lemma {:induction false} TilesSize(mem: seq<byte>, from: nat, to: nat, q: seq<seq<byte>>)
    requires Tiles(mem, from, to, q) && from <= |mem|
    ensures to == from + TotalSize(q) <= |mem|
    decreases |q|
  {
    if q != [] {
      TilesSize(mem, from + |q[0]|, to, q[1..]);
    }
  }

  /** Tiling only depends on the bytes it covers. */
  lemma {:induction false} TilesKept(
      mem: seq<byte>, mem': seq<byte>, from: nat, to: nat, q: seq<seq<byte>>)
    requires |mem| == |mem'| && from <= |mem|
    requires Tiles(mem, from, to, q)
    requires forall i :: from <= i < to && i < |mem| ==> mem'[i] == mem[i]
    ensures Tiles(mem', from, to, q)
    decreases |q|
  {
    if q != [] {
      TilesSize(mem, from, to, q);
      TilesSize(mem, from + |q[0]|, to, q[1..]);
      assert mem'[from..from + |q[0]|] == mem[from..from + |q[0]|];
      TilesKept(mem, mem', from + |q[0]|, to, q[1..]);
    }
  }

  lemma {:induction false} TilesAppend(
      mem: seq<byte>, from: nat, to: nat, q: seq<seq<byte>>, b: seq<byte>)
    requires Tiles(mem, from, to, q) && At(mem, to, b)
    ensures Tiles(mem, from, to + |b|, q + [b])
    decreases |q|
  {
    if q != [] {
      TilesAppend(mem, from + |q[0]|, to, q[1..], b);
      assert (q + [b])[1..] == q[1..] + [b];
    }
  }

  /** The bytes where an image lies. */
  lemma ImageBytes(mem: seq<byte>, pos: nat, b: seq<byte>)
    requires At(mem, pos, b) && IsImage(b)
    ensures MagicAt(mem, pos) == MAGIC_NUMBER
    ensures mem[pos..pos + METADATA_SIZE] == b[..METADATA_SIZE]
    ensures METADATA_SIZE + Uint32(b[..METADATA_SIZE][4..8]) == |b|
    ensures mem[pos + METADATA_SIZE..pos + |b|] == b[METADATA_SIZE..]
  {
    var at := mem[pos..pos + |b|];
    assert mem[pos..pos + METADATA_SIZE] == at[..METADATA_SIZE];
    assert mem[pos + METADATA_SIZE..pos + |b|] == at[METADATA_SIZE..];
    assert mem[pos..pos + 4] == at[0..4] == b[0..4];
    assert b[..METADATA_SIZE][4..8] == b[4..8];
  }

  /** What the reader finds where an image lies. */
  lemma ImageReads(mem: seq<byte>, pos: nat, b: seq<byte>)
    requires At(mem, pos, b) && IsImage(b)
    ensures MagicAt(mem, pos) == MAGIC_NUMBER
    ensures Decode(mem[pos..pos + METADATA_SIZE]) == Parse(b).meta
    ensures Parse(b).meta.frameSize == |b| - METADATA_SIZE
    ensures mem[pos + METADATA_SIZE..pos + |b|] == Parse(b).payload
  {
    ImageBytes(mem, pos, b);
    assert b[..METADATA_SIZE][4..8] == b[4..8];
  }
}
