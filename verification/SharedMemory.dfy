/** The shared memory of one worker as both processes touch it: channels with their two indices
    and data area, the frame writer and reader, the occupancy metrics, the channel allocator. */
module SharedMemory {
  import opened Bytes
  import opened FrameMeta
  import opened RingSpec
  import opened RingRuns
  import opened RingLaps
  import opened ChannelPool

  datatype ChannelMetrics = ChannelMetrics(
    capacity: nat, head: nat, tail: nat, bytesBuffered: nat, saturationPct: real, isStalled: bool)

  class Channel {
    var writeHead: u32
    var readTail: u32
    const capacity: nat
    const data: array<byte>

    /** The channel as a value. */
    function View(): Ring
      reads this, data
    {
      Ring(data[..], writeHead, readTail)
    }

    predicate Valid()
      reads this, data
    {
      data.Length == capacity && View().Sane()
    }

    constructor (sizePerChannel: nat)
      requires METADATA_SIZE <= sizePerChannel < 0x8000_0000
      ensures Valid() && capacity == sizePerChannel && fresh(data)
      ensures View() == Created(sizePerChannel)
    {
      capacity := sizePerChannel;
      data := new byte[sizePerChannel](_ => 0);
      writeHead := 0;
      readTail := 0;
      new;
      assert View().mem == Created(sizePerChannel).mem;
    }

    /** The indices restart; the bytes stay. */
    method CleanUp()
      requires Valid()
      modifies this
      ensures Valid()
      ensures View() == Ring(old(data[..]), 0, 0)
    {
      writeHead := 0;
      readTail := 0;
    }

    method WriteFrame(meta: FrameMetadata, pad: Padding, payload: seq<byte>) returns (ok: bool)
      requires Valid()
      requires |payload| == meta.frameSize && METADATA_SIZE + |payload| <= capacity
      modifies this`writeHead, data
      ensures Valid()
      ensures (View(), ok) == Write(old(View()), Header(meta, pad) + payload)
    {
      hide Write, Splice, Header, WritePlan, U32;
      ghost var r, image := View(), Header(meta, pad) + payload;
      WriteIsPlanned(r, image);
      PlanFits(r, |image|);
      var head := writeHead;
      var tail := readTail;
      var totalNeeded := METADATA_SIZE + meta.frameSize;

      var nextHead := U32(head + totalNeeded);
      var wrapped := false;
      if nextHead > capacity {
        nextHead := U32(totalNeeded);
        wrapped := true;
      }
      var start := if wrapped then 0 else head;
      PlanIs(capacity, head, tail, totalNeeded, start, nextHead);
      if start < tail && nextHead > tail {
        return false;
      }

      CopyIn(start, Header(meta, pad), payload);
      writeHead := nextHead;
      return true;
    }

    /** The two memcpy calls. */
    method CopyIn(start: nat, header: seq<byte>, payload: seq<byte>)
      requires start + |header| + |payload| <= data.Length
      modifies data
      ensures data[..] == Splice(old(data[..]), start, header + payload)
    {
      forall i | 0 <= i < |header| {
        data[start + i] := header[i];
      }
      forall i | 0 <= i < |payload| {
        data[start + |header| + i] := payload[i];
      }
      CopiedInTwo(old(data[..]), data[..], start, header, payload);
    }

    method ReadFrame() returns (result: ReadResult)
      requires Valid()
      modifies this`readTail
      ensures Valid()
      ensures (View(), result) == Read(old(View()))
    {
      var head := writeHead;
      var tail := readTail;
      if tail == head {
        return Empty;
      }
      var pos: nat := tail;
      if U32(pos + METADATA_SIZE) > capacity {
        pos := 0;
      }
      var magic := MagicAt(data[..], pos);
      if magic != MAGIC_NUMBER {
        pos := 0;
        magic := MagicAt(data[..], pos);
        if magic != MAGIC_NUMBER {
          readTail := head;
          return Dropped;
        }
      }
      result := CopyOut(head, pos);
    }

    /** The rest of ReadFrame, once it has found the magic number at pos: head is the value it
        loaded first and falls back to. */
    method CopyOut(head: u32, pos: nat) returns (result: ReadResult)
      requires Valid() && head == writeHead && pos + METADATA_SIZE <= capacity
      modifies this`readTail
      ensures Valid()
      ensures (View(), result) == ReadFrameAt(old(View()), pos)
    {
      hide Decode;
      ghost var mem := data[..];
      var metaBytes := data[pos..pos + METADATA_SIZE];
      assert metaBytes == mem[pos..pos + METADATA_SIZE];
      var meta := new MetaRecord();
      var loaded := meta.LoadFrom(metaBytes);
      var start := pos + METADATA_SIZE;
      var end := U32(start + meta.frameSize);
      if end > capacity {
        readTail := head;
        return Dropped;
      }
      if end < start {
        return Panic;
      }
      var frameData := data[start..end];
      assert frameData == mem[start..end];
      readTail := end;
      return Got(Delivery(meta.View(), frameData));
    }

    /** The occupancy report. The source computes the percentage in floating point; the reals here
        have no rounding. */
    method GetMetrics() returns (m: ChannelMetrics)
      requires Valid()
      ensures m.head == writeHead && m.tail == readTail && m.capacity == capacity
      ensures m.bytesBuffered == Buffered(capacity, writeHead, readTail) <= capacity
      ensures m.isStalled <==> Stalled(View())
      ensures m.saturationPct * capacity as real == 100.0 * m.bytesBuffered as real
    {
      var head := writeHead;
      var tail := readTail;
      var bytesBuffered := 0;
      if head >= tail {
        bytesBuffered := head - tail;
      } else {
        bytesBuffered := (capacity - tail) + head;
      }
      var saturation := bytesBuffered as real / capacity as real * 100.0;
      Percent(bytesBuffered, capacity);
      m := ChannelMetrics(capacity, head, tail, bytesBuffered, saturation, saturation > 95.0);
    }
  }

  lemma PlanIs(cap: nat, head: nat, tail: nat, n: nat, start: nat, next: u32)
    requires next == if U32(head + n) > cap then U32(n) else U32(head + n)
    requires start == if U32(head + n) > cap then 0 else head
    ensures WritePlan(cap, head, tail, n)
            == if start < tail && next > tail then Full else Place(start, next)
  {
  }

  lemma WriteIsPlanned(r: Ring, b: seq<byte>)
    requires r.Sane() && METADATA_SIZE <= |b| <= r.Cap()
    ensures match WritePlan(r.Cap(), r.head, r.tail, |b|)
            case Full => Write(r, b) == (r, false)
            case Place(start, next) =>
              start + |b| <= r.Cap() && Write(r, b) == (Ring(Splice(r.mem, start, b), next, r.tail), true)
  {
    PlanFits(r, |b|);
  }

  lemma CopiedInTwo(mem: seq<byte>, mem': seq<byte>, start: nat, a: seq<byte>, b: seq<byte>)
    requires |mem| == |mem'| && start + |a| + |b| <= |mem|
    requires forall i :: 0 <= i < |a| ==> mem'[start + i] == a[i]
    requires forall i :: 0 <= i < |b| ==> mem'[start + |a| + i] == b[i]
    requires forall i :: 0 <= i < |mem| && !(start <= i < start + |a| + |b|) ==> mem'[i] == mem[i]
    ensures mem' == Splice(mem, start, a + b)
  {
    var s := Splice(mem, start, a + b);
    SpliceBytes(mem, start, a + b);
    forall i | 0 <= i < |mem|
      ensures mem'[i] == s[i]
    {
      if start <= i < start + |a| {
        assert mem'[start + (i - start)] == a[i - start];
        assert s[start..start + |a + b|][i - start] == s[i];
      } else if start + |a| <= i < start + |a| + |b| {
        assert mem'[start + |a| + (i - start - |a|)] == b[i - start - |a|];
        assert s[start..start + |a + b|][i - start] == s[i];
      }
    }
  }

  lemma Percent(part: nat, whole: nat)
    requires whole > 0
    ensures var pct := part as real / whole as real * 100.0;
            && pct * whole as real == 100.0 * part as real
            && (pct > 95.0 <==> 100 * part > 95 * whole)
  {
    var p, w := part as real, whole as real;
    RatioAbove(p, w);
    assert 100.0 * p == (100 * part) as real && 95.0 * w == (95 * whole) as real;
  }

  lemma RatioAbove(p: real, w: real)
    requires w > 0.0
    ensures p / w * 100.0 * w == 100.0 * p
    ensures p / w * 100.0 > 95.0 <==> 100.0 * p > 95.0 * w
  {
    var x := p / w;
    assert x * w == p;
    if x * 100.0 > 95.0 {
      assert (x * 100.0 - 95.0) * w > 0.0;
    } else {
      assert (95.0 - x * 100.0) * w >= 0.0;
    }
  }

  /** What GetMetrics reports as a stall. */
  predicate Stalled(r: Ring)
    requires r.Sane()
  {
    100 * Buffered(r.Cap(), r.head, r.tail) > 95 * r.Cap()
  }

  /** The stall threshold is a headroom guarantee: every frame of at most a fortieth of the
      capacity has headroom whenever the channel does not report a stall. */
  lemma NotStalledHasHeadroom(r: Ring, n: nat)
    requires r.Sane() && 40 * n <= r.Cap() && !Stalled(r)
    ensures Headroom(r, n)
  {
  }

  /** A fortieth is exact: for a capacity divisible by twenty, the occupancies that are not a stall
      all leave headroom for n bytes if and only if n is at most a fortieth. */
  lemma FortiethIsExact(cap: nat, n: nat)
    requires cap % 20 == 0
    ensures (forall used: nat :: used <= cap && !(100 * used > 95 * cap) ==> used + 2 * n <= cap)
            <==> 40 * n <= cap
  {
    var used := cap / 20 * 19;
    assert used <= cap && !(100 * used > 95 * cap);
  }

  const CAPACITY: nat := 3145728
  const MAX_PAYLOAD: nat := 32768

  /** In the deployed sizes, a channel that is not stalled accepts the next frame without touching
      any unread byte, as long as a wrap would not skip onto an old header. */
  lemma DeployedNotStalledLossless(r: Ring, q: seq<seq<byte>>, l: Layout, b: seq<byte>)
    requires Represents(r, q, l) && r.Cap() == CAPACITY
    requires IsImage(b) && |b| <= METADATA_SIZE + MAX_PAYLOAD
    requires !Stalled(r)
    requires Wraps(r, |b|) ==> SkipSeen(r.mem, r.head)
    ensures Write(r, b).1
    ensures Represents(Write(r, b).0, q + [b], RingFifo.AfterWrite(r, q, l, |b|))
    ensures forall a :: 0 <= a < r.Cap() && RingFifo.Live(r, l, a) ==>
              Write(r, b).0.mem[a] == r.mem[a]
  {
    NotStalledHasHeadroom(r, |b|);
    HeadroomGivesRoom(r, |b|);
    RingFifo.WriteRefines(r, q, l, b);
    RingFifo.WriteLeavesLive(r, q, l, b);
  }

  /** At every write of the run the channel has the deployed size, does not report a stall, and the
      payload is within the deployed limit. */
  predicate DeployedThroughout(r: Ring, ops: seq<Op>)
    requires Runnable(r, ops)
    decreases |ops|
  {
    && r.Cap() == CAPACITY
    && (ops != [] ==>
          && (ops[0].Put? ==> !Stalled(r) && |ops[0].image| <= METADATA_SIZE + MAX_PAYLOAD)
          && DeployedThroughout(Step(r, ops[0]).0, ops[1..]))
  }

  lemma {:induction false} DeployedHasHeadroom(r: Ring, ops: seq<Op>)
    requires Runnable(r, ops) && DeployedThroughout(r, ops)
    ensures HeadroomThroughout(r, ops)
    decreases |ops|
  {
    hide Step;
    if ops != [] {
      if ops[0].Put? {
        NotStalledHasHeadroom(r, |ops[0].image|);
      }
      DeployedHasHeadroom(Step(r, ops[0]).0, ops[1..]);
    }
  }

  /** Over whole runs in the deployed sizes: when no accepted write comes during a reported stall and
      none skips onto an old header, the channel is a queue. */
  lemma DeployedRunIsFifo(r: Ring, q: seq<seq<byte>>, l: Layout, ops: seq<Op>)
    requires Represents(r, q, l) && Runnable(r, ops)
    requires DeployedThroughout(r, Taken(r, ops)) && CleanThroughout(r, Taken(r, ops))
    ensures Answered(Run(r, ops).1) == QueueRun(q, Taken(r, ops)).1
    ensures exists l' :: Represents(Run(r, ops).0, QueueRun(q, Taken(r, ops)).0, l')
  {
    DeployedHasHeadroom(r, Taken(r, ops));
    HeadroomRunIsFifo(r, q, l, ops);
  }

  /** From zeroed memory no stall is enough, while the accepted frames have one size or at most one
      of them wraps. */
  lemma DeployedFromZeroFifo(ops: seq<Op>, n: nat)
    requires Runnable(Created(CAPACITY), ops)
    requires var ts := Taken(Created(CAPACITY), ops);
             && DeployedThroughout(Created(CAPACITY), ts)
             && ((n > 0 && forall op :: op in ts && op.Put? ==> |op.image| == n)
                 || WrapCount(Created(CAPACITY), ts) <= 1)
    ensures Answered(Run(Created(CAPACITY), ops).1)
            == QueueRun([], Taken(Created(CAPACITY), ops)).1
  {
    var ts := Taken(Created(CAPACITY), ops);
    DeployedHasHeadroom(Created(CAPACITY), ts);
    if WrapCount(Created(CAPACITY), ts) <= 1 {
      FirstWrapFifo(CAPACITY, ops);
    } else {
      EqualFramesFifo(CAPACITY, n, ops);
    }
  }

  // ------------------------------------------------------------------ the allocator

  class LinuxSharedMemory {
    var channels: seq<Channel>
    var availChannels: seq<nat>
    var channelForCam: map<int, nat>

    function PoolView(): Pool
      reads this
    {
      Pool(availChannels, channelForCam)
    }

    /** Channels are separate objects over separate memory, and the pool partitions them. */
    ghost predicate Valid()
      reads this, channels, set c | c in channels :: c.data
    {
      && (forall i :: 0 <= i < |channels| ==> channels[i].Valid())
      && (forall i, j :: 0 <= i < j < |channels| ==>
            channels[i] != channels[j] && channels[i].data != channels[j].data)
      && Partitions(PoolView(), |channels|)
    }

    /** Create: channel i on the free stack, the last one on top, every ring empty over zeros. */
    constructor Create(numChannels: nat, sizePerChannel: nat)
      requires METADATA_SIZE <= sizePerChannel < 0x8000_0000
      ensures Valid() && |channels| == numChannels
      ensures PoolView() == Fresh(numChannels).pool
      ensures forall i :: 0 <= i < numChannels ==> channels[i].View() == Created(sizePerChannel)
    {
      channels := [];
      availChannels := [];
      channelForCam := map[];
      new;
      var i := 0;
      while i < numChannels
        invariant 0 <= i <= numChannels
        invariant |channels| == |availChannels| == i && channelForCam == map[]
        invariant forall k :: 0 <= k < i ==> availChannels[k] == k
        invariant forall k :: 0 <= k < i ==> fresh(channels[k]) && fresh(channels[k].data)
        invariant forall k :: 0 <= k < i ==>
          channels[k].Valid() && channels[k].View() == Created(sizePerChannel)
        invariant forall j, k :: 0 <= j < k < i ==>
          channels[j] != channels[k] && channels[j].data != channels[k].data
      {
        var ch := new Channel(sizePerChannel);
        channels := channels + [ch];
        availChannels := availChannels + [i];
        i := i + 1;
      }
      FreshIsOk(numChannels);
      assert availChannels == Fresh(numChannels).pool.free;
    }

    method PopAvailableChannel() returns (ch: int)
      modifies this`availChannels
      ensures old(availChannels) == [] ==> ch == -1 && availChannels == []
      ensures old(availChannels) != [] ==> old(availChannels) == availChannels + [ch]
    {
      if availChannels != [] {
        ch := availChannels[|availChannels| - 1];
        availChannels := availChannels[..|availChannels| - 1];
        return;
      }
      return -1;
    }

    method ChannelForCamID(camID: int) returns (ch: int)
      requires Valid()
      modifies this`availChannels, this`channelForCam
      ensures Valid()
      ensures (PoolView(), ch) == Acquire(old(PoolView()), camID)
    {
      hide Partitions;
      AcquireKeeps(PoolView(), |channels|, camID);
      if camID in channelForCam {
        return channelForCam[camID];
      }
      ch := PopAvailableChannel();
      if ch >= 0 {
        channelForCam := channelForCam[camID := ch];
      }
    }

    /** The camera's channel goes back on the stack with its indices reset; no other channel
        changes. */
    method ReleaseChannelForCamID(camID: int)
      requires Valid()
      modifies this`availChannels, this`channelForCam, channels
      ensures Valid() && channels == old(channels)
      ensures PoolView() == Release(old(PoolView()), camID)
      ensures forall i :: 0 <= i < |channels| ==>
                channels[i].View() ==
                  if camID in old(channelForCam) && old(channelForCam)[camID] == i
                  then Ring(old(channels[i].View().mem), 0, 0)
                  else old(channels[i].View())
    {
      ReleaseKeeps(PoolView(), |channels|, camID);
      if camID in channelForCam {
        var chID := channelForCam[camID];
        assert Held(PoolView(), chID);
        channelForCam := channelForCam - {camID};
        availChannels := availChannels + [chID];
        channels[chID].CleanUp();
      }
    }

    /** A write touches one ring; a channel index that does not exist is refused. */
    method WriteFrame(channelIdx: int, meta: FrameMetadata, pad: Padding, payload: seq<byte>)
        returns (ok: bool)
      requires Valid()
      requires 0 <= channelIdx < |channels| ==>
                 |payload| == meta.frameSize
                 && METADATA_SIZE + |payload| <= channels[channelIdx].capacity
      modifies channels, set c | c in channels :: c.data
      ensures Valid()
      ensures !(0 <= channelIdx < |channels|) ==> !ok
      ensures 0 <= channelIdx < |channels| ==>
                (channels[channelIdx].View(), ok)
                == Write(old(channels[channelIdx].View()), Header(meta, pad) + payload)
      ensures forall i :: 0 <= i < |channels| && i != channelIdx ==>
                channels[i].View() == old(channels[i].View())
    {
      if channelIdx < 0 || channelIdx >= |channels| {
        return false;
      }
      ok := channels[channelIdx].WriteFrame(meta, pad, payload);
    }
  }
}
