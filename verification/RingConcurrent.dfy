/** Writer and reader interleaved byte by byte. Each process loads the shared indices once, copies
    single bytes, and commits its own index last; between any two of these steps the other process
    may run. Memory is sequentially consistent here, which the release stores and acquire loads of
    the indices provide for the bytes they guard. */
module RingConcurrent {
  import opened Bytes
  import opened FrameMeta
  import opened RingSpec
  import opened RingFifo

  datatype Writer =
    | WIdle
    | WCopy(image: seq<byte>, start: nat, next: nat, done: nat)

  datatype Reader =
    | RIdle
    | RMagic(seen: nat, pos: nat, retried: bool, got: seq<byte>)
    | RHeader(seen: nat, pos: nat, got: seq<byte>)
    | RPayload(header: seq<byte>, pos: nat, end: nat, got: seq<byte>)

  /** The shared ring, both processes' local state, and the history: frame images published, frame
      images copied out and delivered, writes refused, reads that dropped data or crashed. */
  datatype System = System(
    ring: Ring, writer: Writer, reader: Reader,
    sent: seq<seq<byte>>, received: seq<seq<byte>>, refused: nat, lost: nat)

  datatype Step =
    | WriterLoad(image: seq<byte>) | WriterCopy | WriterPublish
    | ReaderLoad | ReaderByte | ReaderDecide | ReaderCommit

  /** The frame size a complete header announces. */
  function SizeField(header: seq<byte>): u32
    requires |header| == METADATA_SIZE
  {
    Uint32(header[4..8])
  }

  /** How many bytes the reader's current phase collects, and from where. */
  function Window(rd: Reader): (int, int)
    requires !rd.RIdle?
  {
    match rd
    case RMagic(_, pos, _, _) => (pos, pos + 4)
    case RHeader(_, pos, _) => (pos, pos + METADATA_SIZE)
    case RPayload(_, pos, end, _) => (pos + METADATA_SIZE, end)
  }

  predicate Collected(rd: Reader) {
    !rd.RIdle? && |rd.got| == Window(rd).1 - Window(rd).0
  }

  predicate MayCollect(r: Ring, rd: Reader) {
    && !rd.RIdle? && |rd.got| < Window(rd).1 - Window(rd).0
    && 0 <= Window(rd).0 && Window(rd).1 <= r.Cap()
  }

  /** The reader's state with the next byte of its window collected. */
  function Collect(r: Ring, rd: Reader): Reader
    requires MayCollect(r, rd)
  {
    var x := r.mem[Window(rd).0 + |rd.got|];
    match rd
    case RMagic(seen, pos, retried, got) => RMagic(seen, pos, retried, got + [x])
    case RHeader(seen, pos, got) => RHeader(seen, pos, got + [x])
    case RPayload(header, pos, end, got) => RPayload(header, pos, end, got + [x])
  }

  predicate Enabled(s: System, step: Step) {
    match step
    case WriterLoad(b) =>
      s.writer.WIdle? && s.ring.Sane() && METADATA_SIZE <= |b| <= s.ring.Cap()
    case WriterCopy =>
      && s.writer.WCopy? && s.writer.done < |s.writer.image|
      && s.writer.start + |s.writer.image| <= s.ring.Cap()
    case WriterPublish => s.writer.WCopy? && s.writer.done == |s.writer.image|
    case ReaderLoad => s.reader.RIdle? && s.ring.Sane()
    case ReaderByte => MayCollect(s.ring, s.reader)
    case ReaderDecide => (s.reader.RMagic? || s.reader.RHeader?) && Collected(s.reader)
    case ReaderCommit => s.reader.RPayload? && Collected(s.reader)
  }

  function Next(s: System, step: Step): System
    requires Enabled(s, step)
  {
    match step
    case WriterLoad(b) =>
      (match WritePlan(s.ring.Cap(), s.ring.head, s.ring.tail, |b|)
       case Full => s.(refused := s.refused + 1)
       case Place(start, next) => s.(writer := WCopy(b, start, next, 0)))
    case WriterCopy => CopyOne(s)
    case WriterPublish =>
      s.(ring := s.ring.(head := s.writer.next), writer := WIdle, sent := s.sent + [s.writer.image])
    case ReaderLoad =>
      if s.ring.tail == s.ring.head then s
      else s.(reader := RMagic(s.ring.head, ProbeStart(s.ring.Cap(), s.ring.tail), false, []))
    case ReaderByte =>
      s.(reader := Collect(s.ring, s.reader))
    case ReaderDecide =>
      var rd := s.reader;
      if rd.RMagic? then
        if Uint32(rd.got) == MAGIC_NUMBER then s.(reader := RHeader(rd.seen, rd.pos, []))
        else if !rd.retried then s.(reader := RMagic(rd.seen, 0, true, []))
        else Lose(s, rd.seen)
      else
        var end := U32(rd.pos + METADATA_SIZE + SizeField(rd.got));
        if end > s.ring.Cap() then Lose(s, rd.seen)
        else if end < rd.pos + METADATA_SIZE then Lose(s, s.ring.tail)
        else s.(reader := RPayload(rd.got, rd.pos, end, []))
    case ReaderCommit =>
      s.(ring := s.ring.(tail := s.reader.end), reader := RIdle,
         received := s.received + [s.reader.header + s.reader.got])
  }

  /** The writer copies one byte. */
  function CopyOne(s: System): System
    requires Enabled(s, WriterCopy)
  {
    var w := s.writer;
    s.(ring := s.ring.(mem := s.ring.mem[w.start + w.done := w.image[w.done]]),
       writer := WCopy(w.image, w.start, w.next, w.done + 1))
  }

  /** The reader gives up on what it found and moves its index. */
  function Lose(s: System, tail: nat): System {
    s.(ring := s.ring.(tail := tail), reader := RIdle, lost := s.lost + 1)
  }

  /** The writer goes ahead with n bytes, from the indices as they are now. */
  predicate Accepts(r: Ring, n: nat) {
    WritePlan(r.Cap(), r.head, r.tail, n).Place?
  }

  /** The only hypothesis on a run: each frame is an image, and if the writer goes ahead with it
      there is room at the moment it loads the indices. What the reader does afterwards is
      unconstrained, and so are the frames the writer refuses. */
  predicate Admissible(s: System, step: Step) {
    && Enabled(s, step)
    && (step.WriterLoad? ==>
          IsImage(step.image)
          && (Accepts(s.ring, |step.image|) ==> Room(s.ring, |step.image|)))
  }

  function Exec(s: System, steps: seq<Step>): System
    requires AdmissibleRun(s, steps)
    decreases |steps|
  {
    if steps == [] then s else Exec(Next(s, steps[0]), steps[1..])
  }

  predicate AdmissibleRun(s: System, steps: seq<Step>)
    decreases |steps|
  {
    steps != [] ==> Admissible(s, steps[0]) && AdmissibleRun(Next(s, steps[0]), steps[1..])
  }

  // ------------------------------------------------------------------ invariant

  function Pending(s: System): seq<seq<byte>>
    requires |s.received| <= |s.sent|
  {
    s.sent[|s.received|..]
  }

  /** The writer's target, judged by the indices as they are now, not as they were loaded. */
  predicate WriterOk(r: Ring, l: Layout, w: Writer)
    requires r.Sane()
  {
    w.WCopy? ==>
      && IsImage(w.image) && w.done <= |w.image|
      && w.start + |w.image| == w.next <= r.Cap()
      && r.mem[w.start..w.start + w.done] == w.image[..w.done]
      && (|| (w.start == r.head && (l.Wrapped? ==> w.next < r.tail))
          || (w.start == 0 && l.Straight? && w.next < r.tail && SkipSeen(r.mem, r.head)))
  }

  predicate ReaderOk(r: Ring, q: seq<seq<byte>>, l: Layout, rd: Reader)
    requires r.Sane()
  {
    !rd.RIdle? ==>
      && q != []
      && 0 <= Window(rd).0 <= Window(rd).1 <= r.Cap()
      && |rd.got| <= Window(rd).1 - Window(rd).0
      && rd.got == r.mem[Window(rd).0..Window(rd).0 + |rd.got|]
      && match rd
         case RMagic(_, pos, retried, _) =>
           if retried then pos == 0 == Front(r, l) else pos == ProbeStart(r.Cap(), r.tail)
         case RHeader(_, pos, _) => pos == Front(r, l)
         case RPayload(header, pos, end, _) =>
           pos == Front(r, l) && end == pos + |q[0]|
           && |q[0]| >= METADATA_SIZE && header == q[0][..METADATA_SIZE]
  }

  predicate Inv(s: System, l: Layout) {
    && s.received <= s.sent
    && s.lost == 0
    && Represents(s.ring, Pending(s), l)
    && WriterOk(s.ring, l, s.writer)
    && ReaderOk(s.ring, Pending(s), l, s.reader)
  }

  // ------------------------------------------------------------------ non-interference

  predicate Targets(w: Writer, a: int) {
    w.WCopy? && w.start <= a < w.next
  }

  predicate Watches(rd: Reader, a: int) {
    !rd.RIdle? && Window(rd).0 <= a < Window(rd).1
  }

  lemma WatchedIsLive(r: Ring, q: seq<seq<byte>>, l: Layout, rd: Reader)
    requires Represents(r, q, l) && ReaderOk(r, q, l, rd)
    ensures forall a :: Watches(rd, a) ==> Live(r, l, a)
  {
    if !rd.RIdle? {
      Consume(r, q, l);
      ProbeFinds(r, q, l);
      FrontIsLive(r, q, l);
    }
  }

  lemma FrontIsLive(r: Ring, q: seq<seq<byte>>, l: Layout)
    requires Represents(r, q, l) && q != []
    ensures |q[0]| >= METADATA_SIZE
    ensures forall a :: Front(r, l) <= a < Front(r, l) + |q[0]| ==> Live(r, l, a)
  {
    assert IsImage(q[0]);
    match l
    case Straight => TilesSize(r.mem, r.tail + |q[0]|, r.head, q[1..]);
    case Wrapped(skip, lap) =>
      if lap == 0 {
        assert q[0..] == q;
        TilesSize(r.mem, |q[0]|, r.head, q[1..]);
      } else {
        TilesSize(r.mem, r.tail + |q[0]|, skip, q[..lap][1..]);
      }
  }

  lemma TargetIsDead(r: Ring, q: seq<seq<byte>>, l: Layout, w: Writer)
    requires Represents(r, q, l) && WriterOk(r, l, w)
    ensures forall a :: Targets(w, a) ==> !Live(r, l, a)
  {
  }

  /** In every state satisfying the invariant, the bytes the writer is copying over are none of the
      unread frames, none of the bytes the reader is copying, and not the header it probes. */
  lemma NonInterference(s: System, l: Layout)
    requires Inv(s, l)
    ensures forall a :: Targets(s.writer, a) ==> !Live(s.ring, l, a) && !Watches(s.reader, a)
  {
    TargetIsDead(s.ring, Pending(s), l, s.writer);
    WatchedIsLive(s.ring, Pending(s), l, s.reader);
  }

  // ------------------------------------------------------------------ every step keeps it

  lemma KeepLoad(s: System, l: Layout, b: seq<byte>)
    requires Inv(s, l) && Admissible(s, WriterLoad(b))
    ensures Inv(Next(s, WriterLoad(b)), l)
  {
    if Accepts(s.ring, |b|) {
      LoadMakesWriter(s.ring, Pending(s), l, b);
    }
  }

  lemma LoadMakesWriter(r: Ring, q: seq<seq<byte>>, l: Layout, b: seq<byte>)
    requires Represents(r, q, l) && IsImage(b) && |b| <= r.Cap() && Room(r, |b|)
    ensures var plan := WritePlan(r.Cap(), r.head, r.tail, |b|);
            plan.Place? && WriterOk(r, l, WCopy(b, plan.start, plan.next, 0))
  {
    hide Uint32;
    PlanFits(r, |b|);
    assert r.mem[r.head..r.head] == [] == r.mem[0..0] && b[..0] == [];
  }

  lemma OneMore(s: seq<byte>, from: nat, n: nat)
    requires from + n < |s|
    ensures s[from..from + n + 1] == s[from..from + n] + [s[from + n]]
  {
  }

  lemma CopyKeepsWriter(r: Ring, l: Layout, w: Writer)
    requires r.Sane() && WriterOk(r, l, w) && w.WCopy? && w.done < |w.image|
    requires l.Straight? ==> r.tail <= r.head
    ensures WriterOk(r.(mem := r.mem[w.start + w.done := w.image[w.done]]), l,
                     WCopy(w.image, w.start, w.next, w.done + 1))
  {
    var mem' := r.mem[w.start + w.done := w.image[w.done]];
    OneMore(mem', w.start, w.done);
    OneMore(w.image, 0, w.done);
    SameWindow(r.mem, mem', w.start, w.start + w.done, w.start + w.done);
    if !(w.start == r.head && (l.Wrapped? ==> w.next < r.tail)) {
      SameSkip(r.mem, mem', r.head);
    }
  }

  lemma CopyKeepsReader(r: Ring, q: seq<seq<byte>>, l: Layout, rd: Reader, a: nat, x: byte)
    requires r.Sane() && ReaderOk(r, q, l, rd) && a < r.Cap() && !Watches(rd, a)
    ensures ReaderOk(r.(mem := r.mem[a := x]), q, l, rd)
  {
    hide Uint32;
    if !rd.RIdle? {
      var from := Window(rd).0;
      SameWindow(r.mem, r.mem[a := x], from, from + |rd.got|, a);
    }
  }

  lemma CopySpot(s: System, l: Layout)
    requires Inv(s, l) && Enabled(s, WriterCopy)
    ensures var a := s.writer.start + s.writer.done;
            !Live(s.ring, l, a) && !Watches(s.reader, a)
  {
    NonInterference(s, l);
    assert Targets(s.writer, s.writer.start + s.writer.done);
  }

  lemma CopyKeepsRing(r: Ring, q: seq<seq<byte>>, l: Layout, a: nat, x: byte)
    requires Represents(r, q, l) && a < r.Cap() && !Live(r, l, a)
    ensures Represents(r.(mem := r.mem[a := x]), q, l)
  {
    Untouched(r, r.mem[a := x], q, l);
  }

  lemma Indices(r: Ring, q: seq<seq<byte>>, l: Layout)
    requires Represents(r, q, l)
    ensures r.Sane() && (l.Straight? ==> r.tail <= r.head)
  {
  }

  lemma KeepCopy(s: System, l: Layout)
    requires Inv(s, l) && Enabled(s, WriterCopy)
    ensures Inv(CopyOne(s), l)
  {
    hide Represents, WriterOk, ReaderOk, Live, IsImage, Watches;
    var w := s.writer;
    var a := w.start + w.done;
    CopySpot(s, l);
    Indices(s.ring, Pending(s), l);
    CopyKeepsRing(s.ring, Pending(s), l, a, w.image[w.done]);
    CopyKeepsWriter(s.ring, l, w);
    CopyKeepsReader(s.ring, Pending(s), l, s.reader, a, w.image[w.done]);
  }

  lemma SameWindow(mem: seq<byte>, mem': seq<byte>, from: nat, to: nat, a: nat)
    requires from <= to <= |mem| == |mem'| && !(from <= a < to)
    requires forall i :: 0 <= i < |mem| && i != a ==> mem'[i] == mem[i]
    ensures mem'[from..to] == mem[from..to]
  {
  }

  lemma PublishKeepsReader(
      r: Ring, q: seq<seq<byte>>, l: Layout, rd: Reader, head': nat, b: seq<byte>, l': Layout)
    requires r.Sane() && head' <= r.Cap() && ReaderOk(r, q, l, rd)
    requires l' == l || (l.Straight? && l'.Wrapped? && l'.lap == |q|)
    ensures ReaderOk(r.(head := head'), q + [b], l', rd)
  {
  }

  lemma PublishKeepsRing(r: Ring, q: seq<seq<byte>>, l: Layout, w: Writer) returns (l': Layout)
    requires Represents(r, q, l) && w.WCopy? && WriterOk(r, l, w) && w.done == |w.image|
    ensures Represents(r.(head := w.next), q + [w.image], l')
    ensures l' == l || (l.Straight? && l'.Wrapped? && l'.lap == |q|)
  {
    assert w.image[..w.done] == w.image;
    assert At(r.mem, w.start, w.image);
    if w.start == r.head && (l.Wrapped? ==> w.next < r.tail) {
      CommitAhead(r, q, l, w.image);
      l' := l;
    } else {
      CommitWrap(r, q, w.image);
      l' := Wrapped(r.head, |q|);
    }
  }

  lemma KeepPublish(s: System, l: Layout) returns (l': Layout)
    requires Inv(s, l) && Enabled(s, WriterPublish)
    ensures Inv(Next(s, WriterPublish), l')
  {
    var q := Pending(s);
    l' := PublishKeepsRing(s.ring, q, l, s.writer);
    PublishKeepsReader(s.ring, q, l, s.reader, s.writer.next, s.writer.image, l');
    assert Pending(Next(s, WriterPublish)) == q + [s.writer.image];
  }

  lemma KeepReaderLoad(s: System, l: Layout)
    requires Inv(s, l) && Enabled(s, ReaderLoad)
    ensures Inv(Next(s, ReaderLoad), l)
  {
    hide Uint32;
  }

  lemma ByteKeepsReader(r: Ring, q: seq<seq<byte>>, l: Layout, rd: Reader)
    requires r.Sane() && ReaderOk(r, q, l, rd) && MayCollect(r, rd)
    ensures ReaderOk(r, q, l, Collect(r, rd))
  {
    hide Uint32;
    OneMore(r.mem, Window(rd).0, |rd.got|);
  }

  lemma KeepByte(s: System, l: Layout)
    requires Inv(s, l) && Enabled(s, ReaderByte)
    ensures Inv(Next(s, ReaderByte), l)
  {
    ByteKeepsReader(s.ring, Pending(s), l, s.reader);
    OnlyReader(s, l, Collect(s.ring, s.reader));
  }

  /** A step that only changes the reader's local state. */
  lemma OnlyReader(s: System, l: Layout, rd: Reader)
    requires Inv(s, l) && ReaderOk(s.ring, Pending(s), l, rd)
    ensures Inv(s.(reader := rd), l)
  {
  }

  /** With the magic number complete, the reader either stands on the front frame, or on the skip
      point and has not moved to 0 yet. */
  lemma MagicDecision(r: Ring, q: seq<seq<byte>>, l: Layout, rd: Reader)
    requires Represents(r, q, l) && rd.RMagic? && ReaderOk(r, q, l, rd) && Collected(rd)
    ensures Uint32(rd.got) == MAGIC_NUMBER ==> rd.pos == Front(r, l)
    ensures Uint32(rd.got) == MAGIC_NUMBER ==> rd.pos + METADATA_SIZE <= r.Cap()
    ensures Uint32(rd.got) != MAGIC_NUMBER ==> !rd.retried && Front(r, l) == 0
  {
    ProbeFinds(r, q, l);
    Consume(r, q, l);
    ImageBytes(r.mem, Front(r, l), q[0]);
    assert Uint32(rd.got) == MagicAt(r.mem, rd.pos);
  }

  /** With the header complete, it is the front frame's, and the copy that follows is in range. */
  lemma HeaderDecision(r: Ring, q: seq<seq<byte>>, l: Layout, rd: Reader) returns (end: nat)
    requires Represents(r, q, l) && rd.RHeader? && ReaderOk(r, q, l, rd) && Collected(rd)
    ensures rd.pos + METADATA_SIZE <= end <= r.Cap()
    ensures end == U32(rd.pos + METADATA_SIZE + SizeField(rd.got))
    ensures ReaderOk(r, q, l, RPayload(rd.got, rd.pos, end, []))
  {
    hide Tiles, Uint32;
    Consume(r, q, l);
    ImageBytes(r.mem, Front(r, l), q[0]);
    end := rd.pos + |q[0]|;
    assert r.mem[rd.pos + METADATA_SIZE..rd.pos + METADATA_SIZE] == [];
  }

  lemma KeepDecide(s: System, l: Layout)
    requires Inv(s, l) && Enabled(s, ReaderDecide)
    ensures Inv(Next(s, ReaderDecide), l)
  {
    hide Uint32;
    if s.reader.RMagic? {
      MagicDecision(s.ring, Pending(s), l, s.reader);
      assert s.ring.mem[s.reader.pos..s.reader.pos] == [] == s.ring.mem[0..0];
    } else {
      KeepHeaderDecide(s, l);
    }
  }

  lemma KeepHeaderDecide(s: System, l: Layout)
    requires Inv(s, l) && s.reader.RHeader? && Collected(s.reader)
    ensures Inv(Next(s, ReaderDecide), l)
  {
    hide Uint32, WriterOk, Represents, ReaderOk;
    var rd := s.reader;
    var end := HeaderDecision(s.ring, Pending(s), l, rd);
    var rd' := RPayload(rd.got, rd.pos, end, []);
    assert Next(s, ReaderDecide) == s.(reader := rd');
    OnlyReader(s, l, rd');
  }

  lemma CommitKeepsWriter(r: Ring, q: seq<seq<byte>>, l: Layout, w: Writer)
    requires Represents(r, q, l) && q != [] && WriterOk(r, l, w)
    ensures Front(r, l) + |q[0]| <= r.Cap()
    ensures WriterOk(r.(tail := Front(r, l) + |q[0]|), AfterRead(l), w)
  {
    Consume(r, q, l);
  }

  lemma KeepCommit(s: System, l: Layout)
    requires Inv(s, l) && Enabled(s, ReaderCommit)
    ensures Inv(Next(s, ReaderCommit), AfterRead(l))
  {
    hide Represents;
    var q := Pending(s);
    var s' := Next(s, ReaderCommit);
    CommitKeepsWriter(s.ring, q, l, s.writer);
    Consume(s.ring, q, l);
    DeliveredIsFront(s, l);
    assert s'.ring == s.ring.(tail := Front(s.ring, l) + |q[0]|);
    assert Pending(s') == q[1..];
  }

  lemma DeliveredIsFront(s: System, l: Layout)
    requires Inv(s, l) && Enabled(s, ReaderCommit)
    ensures |s.received| < |s.sent|
    ensures s.reader.header + s.reader.got == s.sent[|s.received|]
  {
    hide Uint32, Tiles, Represents;
    var q, rd := Pending(s), s.reader;
    Consume(s.ring, q, l);
    WholeImage(s.ring.mem, rd.pos, q[0], rd.header, rd.got);
    assert q[0] == s.sent[|s.received|];
  }

  lemma WholeImage(mem: seq<byte>, pos: nat, b: seq<byte>, header: seq<byte>, got: seq<byte>)
    requires At(mem, pos, b) && |b| >= METADATA_SIZE
    requires header == b[..METADATA_SIZE] && got == mem[pos + METADATA_SIZE..pos + |b|]
    ensures header + got == b
  {
    assert got == mem[pos..pos + |b|][METADATA_SIZE..];
    assert b == b[..METADATA_SIZE] + b[METADATA_SIZE..];
  }

  lemma KeepStep(s: System, l: Layout, step: Step) returns (l': Layout)
    requires Inv(s, l) && Admissible(s, step)
    ensures Inv(Next(s, step), l')
  {
    l' := l;
    match step
    case WriterLoad(b) => KeepLoad(s, l, b);
    case WriterCopy => KeepCopy(s, l);
    case WriterPublish => l' := KeepPublish(s, l);
    case ReaderLoad => KeepReaderLoad(s, l);
    case ReaderByte => KeepByte(s, l);
    case ReaderDecide => KeepDecide(s, l);
    case ReaderCommit => KeepCommit(s, l); l' := AfterRead(l);
  }

  lemma {:induction false} KeepRun(s: System, l: Layout, steps: seq<Step>) returns (l': Layout)
    requires Inv(s, l) && AdmissibleRun(s, steps)
    ensures Inv(Exec(s, steps), l')
    decreases |steps|
  {
    if steps == [] {
      l' := l;
    } else {
      var l1 := KeepStep(s, l, steps[0]);
      l' := KeepRun(Next(s, steps[0]), l1, steps[1..]);
    }
  }

  function Start(mem: seq<byte>): System {
    System(Ring(mem, 0, 0), WIdle, RIdle, [], [], 0, 0)
  }

  /** There is room for every frame at the moment the writer loads the indices. */
  predicate RoomAtLoads(s: System, steps: seq<Step>)
    requires AdmissibleRun(s, steps)
    decreases |steps|
  {
    steps != [] ==>
      && (steps[0].WriterLoad? ==> Room(s.ring, |steps[0].image|))
      && RoomAtLoads(Next(s, steps[0]), steps[1..])
  }

  lemma RoomAccepts(r: Ring, n: nat)
    requires r.Sane() && METADATA_SIZE <= n <= r.Cap() && Room(r, n)
    ensures Accepts(r, n)
  {
  }

  lemma {:induction false} RoomNeverRefused(s: System, steps: seq<Step>)
    requires AdmissibleRun(s, steps) && RoomAtLoads(s, steps)
    ensures Exec(s, steps).refused == s.refused
    decreases |steps|
  {
    if steps != [] {
      if steps[0].WriterLoad? {
        RoomAccepts(s.ring, |steps[0].image|);
      }
      RoomNeverRefused(Next(s, steps[0]), steps[1..]);
    }
  }

  /** Every interleaving, from a reset channel with any bytes in it: nothing is dropped, the frames
      delivered are the frames published, in order, each once, and the ring holds exactly the
      frames in between; the writer never touches what the reader depends on; and no frame with
      room is refused. */
  lemma InterleavedFifo(mem: seq<byte>, steps: seq<Step>)
    requires METADATA_SIZE <= |mem| < 0x8000_0000
    requires AdmissibleRun(Start(mem), steps)
    ensures var s := Exec(Start(mem), steps);
            && s.lost == 0 && s.received <= s.sent
            && exists l ::
                 && Represents(s.ring, s.sent[|s.received|..], l)
                 && forall a :: Targets(s.writer, a) ==>
                      !Live(s.ring, l, a) && !Watches(s.reader, a)
    ensures RoomAtLoads(Start(mem), steps) ==> Exec(Start(mem), steps).refused == 0
  {
    var l := KeepRun(Start(mem), Straight, steps);
    NonInterference(Exec(Start(mem), steps), l);
    if RoomAtLoads(Start(mem), steps) {
      RoomNeverRefused(Start(mem), steps);
    }
  }

  // ------------------------------------------------------------------ without interleaving

  /** The writer copies the rest of its frame, undisturbed. */
  function CopyRest(s: System): System
    requires s.writer.WCopy? && s.writer.done <= |s.writer.image|
    requires s.writer.start + |s.writer.image| <= s.ring.Cap()
    decreases |s.writer.image| - s.writer.done
  {
    if s.writer.done == |s.writer.image| then s else CopyRest(CopyOne(s))
  }

  lemma SpliceOne(mem: seq<byte>, at: nat, image: seq<byte>, done: nat)
    requires done < |image| && at + |image| - done <= |mem|
    ensures Splice(mem[at := image[done]], at + 1, image[done + 1..]) == Splice(mem, at, image[done..])
  {
    assert image[done..] == [image[done]] + image[done + 1..];
  }

  lemma SpliceNone(mem: seq<byte>, at: nat)
    requires at <= |mem|
    ensures Splice(mem, at, []) == mem
  {
  }

  lemma {:induction false} CopyRestSplices(s: System)
    requires s.writer.WCopy? && s.writer.done <= |s.writer.image|
    requires s.writer.start + |s.writer.image| <= s.ring.Cap()
    ensures var w := s.writer;
            CopyRest(s) == s.(
              ring := s.ring.(mem := Splice(s.ring.mem, w.start + w.done, w.image[w.done..])),
              writer := w.(done := |w.image|))
    decreases |s.writer.image| - s.writer.done
  {
    hide Splice;
    var w := s.writer;
    if w.done == |w.image| {
      assert w.image[w.done..] == [];
      SpliceNone(s.ring.mem, w.start + w.done);
    } else {
      CopyRestSplices(CopyOne(s));
      SpliceOne(s.ring.mem, w.start + w.done, w.image, w.done);
    }
  }

  /** The writer's steps with nothing in between are the whole write, refusals included. */
  lemma WriterAlone(s: System, b: seq<byte>)
    requires Enabled(s, WriterLoad(b))
    ensures var (ring, ok) := Write(s.ring, b);
            var loaded := Next(s, WriterLoad(b));
            if ok then
              && loaded.writer.WCopy? && loaded.writer.start + |loaded.writer.image| <= s.ring.Cap()
              && loaded.writer.done <= |loaded.writer.image|
              && Enabled(CopyRest(loaded), WriterPublish)
              && Next(CopyRest(loaded), WriterPublish) == s.(ring := ring, sent := s.sent + [b])
            else
              loaded == s.(refused := s.refused + 1) && ring == s.ring
  {
    PlanFits(s.ring, |b|);
    var loaded := Next(s, WriterLoad(b));
    if loaded.writer.WCopy? {
      CopyRestSplices(loaded);
      assert b[0..] == b;
    }
  }

  /** The reader takes whichever step it can, undisturbed, until it is done with this read. */
  function FinishRead(s: System): System
    decreases match s.reader
              case RIdle => 0
              case RPayload(_, _, _, _) => 1
              case RHeader(_, _, _) => 2
              case RMagic(_, _, retried, _) => if retried then 3 else 4,
              if s.reader.RIdle? then 0 else Window(s.reader).1 - Window(s.reader).0 - |s.reader.got|
  {
    if Enabled(s, ReaderByte) then FinishRead(Next(s, ReaderByte))
    else if Enabled(s, ReaderDecide) then FinishRead(Next(s, ReaderDecide))
    else if Enabled(s, ReaderCommit) then Next(s, ReaderCommit)
    else s
  }

  /** The reader's state with its window complete. */
  function Filled(r: Ring, rd: Reader): Reader
    requires !rd.RIdle? && 0 <= Window(rd).0 <= Window(rd).1 <= r.Cap()
  {
    var bytes := r.mem[Window(rd).0..Window(rd).1];
    match rd
    case RMagic(seen, pos, retried, _) => RMagic(seen, pos, retried, bytes)
    case RHeader(seen, pos, _) => RHeader(seen, pos, bytes)
    case RPayload(header, pos, end, _) => RPayload(header, pos, end, bytes)
  }

  lemma GatherOne(s: System)
    requires MayCollect(s.ring, s.reader)
    ensures FinishRead(s) == FinishRead(s.(reader := Collect(s.ring, s.reader)))
  {
  }

  lemma CollectFills(r: Ring, rd: Reader)
    requires MayCollect(r, rd)
    requires rd.got == r.mem[Window(rd).0..Window(rd).0 + |rd.got|]
    ensures var rd' := Collect(r, rd);
            && !rd'.RIdle? && Window(rd') == Window(rd) && |rd'.got| == |rd.got| + 1
            && rd'.got == r.mem[Window(rd').0..Window(rd').0 + |rd'.got|]
            && Filled(r, rd') == Filled(r, rd)
  {
    OneMore(r.mem, Window(rd).0, |rd.got|);
  }

  /** With every byte collected the window is full. */
  lemma AllCollected(r: Ring, rd: Reader)
    requires !rd.RIdle? && 0 <= Window(rd).0 <= Window(rd).1 <= r.Cap()
    requires rd.got == r.mem[Window(rd).0..Window(rd).1]
    ensures Filled(r, rd) == rd
  {
  }

  lemma {:induction false} GatherAll(s: System)
    requires var rd := s.reader;
             && !rd.RIdle? && 0 <= Window(rd).0 <= Window(rd).1 <= s.ring.Cap()
             && |rd.got| <= Window(rd).1 - Window(rd).0
             && rd.got == s.ring.mem[Window(rd).0..Window(rd).0 + |rd.got|]
    ensures FinishRead(s) == FinishRead(s.(reader := Filled(s.ring, s.reader)))
    decreases Window(s.reader).1 - Window(s.reader).0 - |s.reader.got|
  {
    hide FinishRead, Filled, Collect;
    var rd := s.reader;
    if |rd.got| < Window(rd).1 - Window(rd).0 {
      GatherOne(s);
      CollectFills(s.ring, rd);
      GatherAll(s.(reader := Collect(s.ring, rd)));
    } else {
      AllCollected(s.ring, rd);
      assert s.(reader := rd) == s;
    }
  }

  lemma DecideNext(s: System)
    requires s.reader.RMagic? || s.reader.RHeader?
    requires s.reader.got == [] && 0 <= Window(s.reader).0 && Window(s.reader).1 <= s.ring.Cap()
    ensures var full := s.(reader := Filled(s.ring, s.reader));
            Enabled(full, ReaderDecide) && FinishRead(s) == FinishRead(Next(full, ReaderDecide))
  {
    GatherAll(s);
  }

  /** From s to s', one read with the given outcome has happened and nothing else. */
  predicate HasRead(s: System, s': System, ring: Ring, res: ReadResult) {
    match res
    case Empty => s' == s
    case Got(d) =>
      && |s'.received| > |s.received|
      && var b := s'.received[|s.received|];
      && |b| >= METADATA_SIZE && Parse(b) == d
      && s' == s.(ring := ring, received := s.received + [b])
    case _ => s' == s.(ring := ring, lost := s.lost + 1)
  }

  /** The reader with the magic number ahead of it. */
  lemma MagicAlone(s: System, pos: nat, retried: bool)
    requires s.reader.RIdle? && pos + 4 <= s.ring.Cap()
    ensures FinishRead(s.(reader := RMagic(s.ring.head, pos, retried, [])))
            == if MagicAt(s.ring.mem, pos) == MAGIC_NUMBER
               then FinishRead(s.(reader := RHeader(s.ring.head, pos, [])))
               else if !retried then FinishRead(s.(reader := RMagic(s.ring.head, 0, true, [])))
               else Lose(s, s.ring.head)
  {
    hide Uint32;
    DecideNext(s.(reader := RMagic(s.ring.head, pos, retried, [])));
  }

  /** The reader's steps with nothing in between are the whole read, with the same outcome. */
  lemma ReaderAlone(s: System)
    requires Enabled(s, ReaderLoad)
    ensures var (ring, res) := Read(s.ring);
            var s' := FinishRead(Next(s, ReaderLoad));
            HasRead(s, s', ring, res)
  {
    if s.ring.tail == s.ring.head {
      assert FinishRead(s) == s;
    } else {
      hide Uint32, Decode, Parse, FinishRead, ReadFrameAt;
      var first := ProbeStart(s.ring.Cap(), s.ring.tail);
      MagicAlone(s, first, false);
      if MagicAt(s.ring.mem, first) == MAGIC_NUMBER {
        HeaderAlone(s, s.ring.head, first);
      } else {
        MagicAlone(s, 0, true);
        if MagicAt(s.ring.mem, 0) == MAGIC_NUMBER {
          HeaderAlone(s, s.ring.head, 0);
        }
      }
    }
  }

  lemma HeaderAlone(s: System, seen: nat, pos: nat)
    requires s.reader.RIdle? && s.ring.Sane() && pos + METADATA_SIZE <= s.ring.Cap()
    requires seen == s.ring.head
    ensures var (ring, res) := ReadFrameAt(s.ring, pos);
            var s' := FinishRead(s.(reader := RHeader(seen, pos, [])));
            res != Empty && HasRead(s, s', ring, res)
  {
    hide Uint32, Decode;
    DecideNext(s.(reader := RHeader(seen, pos, [])));
    var header := s.ring.mem[pos..pos + METADATA_SIZE];
    var end := U32(pos + METADATA_SIZE + SizeField(header));
    DecidedHeader(s, pos, header, end);
    if pos + METADATA_SIZE <= end <= s.ring.Cap() {
      PayloadAlone(s, header, pos, end);
    }
  }

  lemma DecidedHeader(s: System, pos: nat, header: seq<byte>, end: nat)
    requires s.reader.RIdle? && s.ring.Sane() && pos + METADATA_SIZE <= s.ring.Cap()
    requires header == s.ring.mem[pos..pos + METADATA_SIZE]
    requires end == U32(pos + METADATA_SIZE + SizeField(header))
    ensures var (ring, res) := ReadFrameAt(s.ring, pos);
            var s' := Next(s.(reader := RHeader(s.ring.head, pos, header)), ReaderDecide);
            if pos + METADATA_SIZE <= end <= s.ring.Cap() then
              && s' == s.(reader := RPayload(header, pos, end, []))
              && ring == s.ring.(tail := end)
              && res == Got(Delivery(Decode(header), s.ring.mem[pos + METADATA_SIZE..end]))
            else
              s' == Lose(s, ring.tail) && ring.(tail := s.ring.tail) == s.ring && !res.Empty? && !res.Got?
  {
    hide U32;
  }

  lemma PayloadAlone(s: System, header: seq<byte>, pos: nat, end: nat)
    requires s.reader.RIdle? && |header| == METADATA_SIZE
    requires pos + METADATA_SIZE <= end <= s.ring.Cap()
    ensures HasRead(s, FinishRead(s.(reader := RPayload(header, pos, end, []))),
                    s.ring.(tail := end),
                    Got(Delivery(Decode(header), s.ring.mem[pos + METADATA_SIZE..end])))
  {
    hide Uint32, Decode;
    GatherAll(s.(reader := RPayload(header, pos, end, [])));
    HeaderThenPayload(header, s.ring.mem[pos + METADATA_SIZE..end]);
  }
}
