/** Interleaved runs from zeroed memory: with equal frames, or up to the first wrap, headroom at the
    moment the writer loads the indices is the only hypothesis. */
module RingConcurrentLaps {
  import opened Bytes
  import opened FrameMeta
  import opened RingSpec
  import opened RingFifo
  import opened RingRuns
  import opened RingLaps
  import opened RingConcurrent

  /** The frame is an image, and if the writer goes ahead with it there is headroom. */
  predicate HasHeadroom(s: System, step: Step) {
    && Enabled(s, step)
    && (step.WriterLoad? ==>
          IsImage(step.image)
          && (Accepts(s.ring, |step.image|) ==> Headroom(s.ring, |step.image|)))
  }

  predicate HeadroomRun(s: System, steps: seq<Step>)
    decreases |steps|
  {
    steps != [] ==> HasHeadroom(s, steps[0]) && HeadroomRun(Next(s, steps[0]), steps[1..])
  }

  function Zeroed(cap: nat): System {
    Start(Created(cap).mem)
  }

  lemma ZeroedStarts(cap: nat)
    requires METADATA_SIZE <= cap < 0x8000_0000
    ensures Inv(Zeroed(cap), Straight) && Zeroed(cap).ring == Created(cap)
    ensures ZeroFrom(Zeroed(cap).ring.mem, 0)
  {
  }

  /** Reader steps move no head and write no byte; of them only the commit moves the tail. */
  lemma ReaderLeaves(s: System, l: Layout, step: Step)
    requires Inv(s, l) && Enabled(s, step)
    requires !step.WriterLoad? && !step.WriterCopy? && !step.WriterPublish?
    ensures var s' := Next(s, step);
            && s'.writer == s.writer && s'.sent == s.sent
            && s'.ring.mem == s.ring.mem && s'.ring.head == s.ring.head
            && (!step.ReaderCommit? ==> s'.ring == s.ring && s'.received == s.received)
  {
    hide WriterOk, ReaderOk, Represents;
    if step.ReaderDecide? {
      KeepDecide(s, l);
    }
  }

  // ------------------------------------------------------------------ equal frames

  /** Indices, the writer's target and all frames fit the grid of frame size n; the writer works on
      cell k. */
  predicate Gridded(s: System, n: nat, h: nat, t: nat, m: nat, k: nat)
    requires |s.received| <= |s.sent|
  {
    && OnGrid(s.ring, n, h, t, m)
    && (s.writer.WCopy? ==>
          && |s.writer.image| == n && s.writer.start == k * n
          && s.writer.next == k * n + n <= m * n)
    && forall i :: 0 <= i < |Pending(s)| ==> |Pending(s)[i]| == n
  }

  lemma GridLoad(s: System, l: Layout, b: seq<byte>, n: nat, h: nat, t: nat, m: nat, k: nat)
      returns (k': nat)
    requires Inv(s, l) && Gridded(s, n, h, t, m, k) && n > 0
    requires HasHeadroom(s, WriterLoad(b)) && (Accepts(s.ring, |b|) ==> |b| == n)
    ensures Admissible(s, WriterLoad(b)) && Gridded(Next(s, WriterLoad(b)), n, h, t, m, k')
  {
    k' := k;
    if Accepts(s.ring, |b|) {
      GridRoom(s.ring, n, h, t, m);
      PlanFits(s.ring, n);
      k' := if Wraps(s.ring, n) then 0 else h;
      NextMultiple(k', n);
      GridEnd(s.ring.Cap(), n, k', m);
    }
  }

  lemma GridCopy(s: System, l: Layout, n: nat, h: nat, t: nat, m: nat, k: nat)
    requires Inv(s, l) && Gridded(s, n, h, t, m, k) && Enabled(s, WriterCopy)
    ensures |s.received| <= |s.sent| && Gridded(CopyOne(s), n, h, t, m, k)
  {
  }

  lemma GridPublish(s: System, l: Layout, n: nat, h: nat, t: nat, m: nat, k: nat)
    requires Inv(s, l) && Gridded(s, n, h, t, m, k) && Enabled(s, WriterPublish)
    ensures |s.received| <= |Next(s, WriterPublish).sent|
    ensures Gridded(Next(s, WriterPublish), n, k + 1, t, m, k)
  {
    NextMultiple(k, n);
    assert Pending(Next(s, WriterPublish)) == Pending(s) + [s.writer.image];
  }

  lemma GridCommit(s: System, l: Layout, n: nat, h: nat, t: nat, m: nat, k: nat) returns (t': nat)
    requires Inv(s, l) && Gridded(s, n, h, t, m, k) && Enabled(s, ReaderCommit)
    ensures |Next(s, ReaderCommit).received| <= |s.sent|
    ensures Gridded(Next(s, ReaderCommit), n, h, t', m, k)
  {
    hide Represents;
    DeliveredIsFront(s, l);
    var q := Pending(s);
    assert |q[0]| == n;
    assert Pending(Next(s, ReaderCommit)) == q[1..];
    var front := if Front(s.ring, l) == s.ring.tail then t else 0;
    NextMultiple(front, n);
    t' := front + 1;
  }

  lemma GridStep(s: System, l: Layout, step: Step, n: nat, h: nat, t: nat, m: nat, k: nat)
      returns (l': Layout, h': nat, t': nat, k': nat)
    requires Inv(s, l) && Gridded(s, n, h, t, m, k) && n > 0 && HasHeadroom(s, step)
    requires step.WriterLoad? && Accepts(s.ring, |step.image|) ==> |step.image| == n
    ensures Admissible(s, step) && Inv(Next(s, step), l')
    ensures Gridded(Next(s, step), n, h', t', m, k')
  {
    h', t', k' := h, t, k;
    if step.WriterLoad? {
      k' := GridLoad(s, l, step.image, n, h, t, m, k);
    }
    l' := KeepStep(s, l, step);
    match step
    case WriterLoad(b) =>
    case WriterCopy => GridCopy(s, l, n, h, t, m, k);
    case WriterPublish => GridPublish(s, l, n, h, t, m, k); h' := k + 1;
    case ReaderCommit => t' := GridCommit(s, l, n, h, t, m, k);
    case _ => ReaderLeaves(s, l, step);
  }

  /** Every frame the writer goes ahead with has n bytes. */
  predicate SizesThroughout(s: System, steps: seq<Step>, n: nat)
    requires HeadroomRun(s, steps)
    decreases |steps|
  {
    steps != [] ==>
      && (steps[0].WriterLoad? && Accepts(s.ring, |steps[0].image|) ==> |steps[0].image| == n)
      && SizesThroughout(Next(s, steps[0]), steps[1..], n)
  }

  lemma {:induction false} GridIsAdmissible(
      s: System, l: Layout, steps: seq<Step>, n: nat, h: nat, t: nat, m: nat, k: nat)
    requires Inv(s, l) && Gridded(s, n, h, t, m, k) && n > 0 && HeadroomRun(s, steps)
    requires SizesThroughout(s, steps, n)
    ensures AdmissibleRun(s, steps)
    decreases |steps|
  {
    if steps != [] {
      var l', h', t', k' := GridStep(s, l, steps[0], n, h, t, m, k);
      GridIsAdmissible(Next(s, steps[0]), l', steps[1..], n, h', t', m, k');
    }
  }

  /** Equal frames: every interleaving from zeroed memory on which accepted frames have one size and
      headroom is admissible, lap after lap, so the interleaved ring is a queue. */
  lemma EqualFramesInterleaved(cap: nat, n: nat, steps: seq<Step>)
    requires METADATA_SIZE <= cap < 0x8000_0000 && n > 0
    requires HeadroomRun(Zeroed(cap), steps) && SizesThroughout(Zeroed(cap), steps, n)
    ensures AdmissibleRun(Zeroed(cap), steps)
    ensures var s := Exec(Zeroed(cap), steps); s.lost == 0 && s.received <= s.sent
  {
    ZeroedStarts(cap);
    var m := cap / n;
    assert Gridded(Zeroed(cap), n, 0, 0, m, 0);
    GridIsAdmissible(Zeroed(cap), Straight, steps, n, 0, 0, m, 0);
    InterleavedFifo(Created(cap).mem, steps);
  }

  // ------------------------------------------------------------------ the first wrap

  predicate WrapLoads(s: System, step: Step) {
    step.WriterLoad? && Accepts(s.ring, |step.image|) && Wraps(s.ring, |step.image|)
  }

  /** How many frames of the run go to the start of the buffer. */
  function WrapLoadCount(s: System, steps: seq<Step>): nat
    requires HeadroomRun(s, steps)
    decreases |steps|
  {
    if steps == [] then 0
    else (if WrapLoads(s, steps[0]) then 1 else 0) + WrapLoadCount(Next(s, steps[0]), steps[1..])
  }

  /** Nothing was ever written past the head, or past the frame the writer is adding to it. */
  predicate NewGround(s: System) {
    match s.writer
    case WIdle => ZeroFrom(s.ring.mem, s.ring.head)
    case WCopy(image, start, next, _) => start == s.ring.head && ZeroFrom(s.ring.mem, next)
  }

  lemma NewGroundRoom(s: System, b: seq<byte>)
    requires s.ring.Sane() && HasHeadroom(s, WriterLoad(b)) && Accepts(s.ring, |b|)
    requires Wraps(s.ring, |b|) ==> NewGround(s)
    ensures Admissible(s, WriterLoad(b))
  {
    if Wraps(s.ring, |b|) {
      ZeroIsNotMagic(s.ring.mem, s.ring.head);
    }
    HeadroomGivesRoom(s.ring, |b|);
  }

  lemma NewGroundStep(s: System, l: Layout, step: Step)
    requires Inv(s, l) && HasHeadroom(s, step) && (WrapLoads(s, step) ==> NewGround(s))
    ensures Admissible(s, step)
    ensures NewGround(s) && !WrapLoads(s, step) ==> NewGround(Next(s, step))
  {
    hide Uint32;
    match step
    case WriterLoad(b) =>
      if Accepts(s.ring, |b|) {
        NewGroundRoom(s, b);
        PlanFits(s.ring, |b|);
      }
    case WriterCopy =>
    case WriterPublish =>
    case _ => ReaderLeaves(s, l, step);
  }

  lemma {:induction false} OneWrapIsAdmissible(s: System, l: Layout, steps: seq<Step>)
    requires Inv(s, l) && HeadroomRun(s, steps)
    requires WrapLoadCount(s, steps) <= if NewGround(s) then 1 else 0
    ensures AdmissibleRun(s, steps)
    decreases |steps|
  {
    if steps != [] {
      NewGroundStep(s, l, steps[0]);
      var l' := KeepStep(s, l, steps[0]);
      OneWrapIsAdmissible(Next(s, steps[0]), l', steps[1..]);
    }
  }

  /** Frames of any sizes: every interleaving from zeroed memory on which accepted frames have
      headroom and at most one of them wraps is admissible. */
  lemma FirstWrapInterleaved(cap: nat, steps: seq<Step>)
    requires METADATA_SIZE <= cap < 0x8000_0000
    requires HeadroomRun(Zeroed(cap), steps) && WrapLoadCount(Zeroed(cap), steps) <= 1
    ensures AdmissibleRun(Zeroed(cap), steps)
    ensures var s := Exec(Zeroed(cap), steps); s.lost == 0 && s.received <= s.sent
  {
    ZeroedStarts(cap);
    OneWrapIsAdmissible(Zeroed(cap), Straight, steps);
    InterleavedFifo(Created(cap).mem, steps);
  }
}
