/** The live muxer's timestamp path for video: anchoring at zero, then the monotonicity guard. */
module TsMuxer {
  import opened Options
  import Bump

  /** 2 s and one frame at 90 kHz. */
  const MAX_FORWARD: int := 180000
  const FRAME_GAP: int := 3000

  /** None stands for AV_NOPTS_VALUE. */
  datatype Stamp = Stamp(dts: Option<int>, pts: Option<int>)

  datatype Guard = Guard(last: Option<int>, offset: int)

  function Shift(o: Option<int>, amount: int): Option<int> {
    match o
    case None => None
    case Some(x) => Some(x + amount)
  }

  /** How far the guard moves a packet whose offset-corrected DTS is d, and how much of that becomes
      permanent. */
  function Correction(last: Option<int>, d: int): (int, int) {
    if last.None? then (0, 0)
    else
      var delta := d - last.value;
      if delta <= 0 then (1 - delta, 0)
      else if delta > MAX_FORWARD then (FRAME_GAP - delta, delta - FRAME_GAP)
      else (0, 0)
  }

  function Enforce(g: Guard, p: Stamp): (Guard, Stamp) {
    if p.dts.None? then (g, p)
    else
      var d := p.dts.value - g.offset;
      var (shift, gap) := Correction(g.last, d);
      (Guard(Some(d + shift), g.offset + gap),
       Stamp(Some(d + shift), Shift(p.pts, shift - g.offset)))
  }

  datatype Anchor = Anchor(dts: Option<int>, pts: Option<int>)
  datatype State = State(anchor: Anchor, guard: Guard)

  const INITIAL: State := State(Anchor(None, None), Guard(None, 0))

  /** A missing DTS is taken from the PTS. */
  function Filled(p: Stamp): Stamp {
    if p.dts.None? then p.(dts := p.pts) else p
  }

  function Anchored(a: Anchor, p: Stamp): (Anchor, Stamp) {
    var fd := if p.dts.Some? && a.dts.None? then p.dts else a.dts;
    var fp := if p.pts.Some? && a.pts.None? then p.pts else a.pts;
    (Anchor(fd, fp),
     Stamp(if p.dts.Some? then Shift(p.dts, -fd.value) else p.dts,
           if p.pts.Some? then Shift(p.pts, -fp.value) else p.pts))
  }

  function Mux(s: State, p: Stamp): (State, Stamp) {
    var (a, p1) := Anchored(s.anchor, Filled(p));
    var (g, p2) := Enforce(s.guard, p1);
    (State(a, g), p2)
  }

  class AVPacket {
    var dts: Option<int>
    var pts: Option<int>

    constructor (dts: Option<int>, pts: Option<int>)
      ensures this.dts == dts && this.pts == pts
    {
      this.dts := dts;
      this.pts := pts;
    }

    function View(): Stamp
      reads this
    {
      Stamp(dts, pts)
    }
  }

  class Muxer {
    var firstVideoDTS: Option<int>
    var firstVideoPTS: Option<int>
    var lastVideoDTS: Option<int>
    var videoDtsOffset: int

    constructor ()
      ensures View() == INITIAL
    {
      firstVideoDTS, firstVideoPTS, lastVideoDTS, videoDtsOffset := None, None, None, 0;
    }

    function View(): State
      reads this
    {
      State(Anchor(firstVideoDTS, firstVideoPTS), Guard(lastVideoDTS, videoDtsOffset))
    }

    /** The guard, with the video trackers passed as its two references. */
    method EnforceMonotonicity(pkt: AVPacket)
      modifies pkt, this`lastVideoDTS, this`videoDtsOffset
      ensures (View().guard, pkt.View()) == Enforce(old(View().guard), old(pkt.View()))
    {
      if pkt.dts.Some? {
        pkt.dts := Some(pkt.dts.value - videoDtsOffset);
        if pkt.pts.Some? {
          pkt.pts := Some(pkt.pts.value - videoDtsOffset);
        }
        if lastVideoDTS.Some? {
          var delta := pkt.dts.value - lastVideoDTS.value;
          if delta <= 0 {
            var shift := (-delta) + 1;
            pkt.dts := Some(pkt.dts.value + shift);
            if pkt.pts.Some? {
              pkt.pts := Some(pkt.pts.value + shift);
            }
          } else if delta > 180000 {
            var massiveGap := delta - 3000;
            videoDtsOffset := videoDtsOffset + massiveGap;
            pkt.dts := Some(pkt.dts.value - massiveGap);
            if pkt.pts.Some? {
              pkt.pts := Some(pkt.pts.value - massiveGap);
            }
          }
        }
        lastVideoDTS := pkt.dts;
      }
    }

    /** From the packet rescaled to the output time base to the packet handed to the container;
        the caller's packet is cloned, not changed. */
    method MuxVideoPacket(pkt: AVPacket) returns (clone: AVPacket)
      modifies this
      ensures fresh(clone)
      ensures (View(), clone.View()) == Mux(old(View()), old(pkt.View()))
    {
      clone := new AVPacket(pkt.dts, pkt.pts);
      if clone.dts.None? && clone.pts.Some? {
        clone.dts := clone.pts;
      }
      if clone.dts.Some? {
        if firstVideoDTS.None? {
          firstVideoDTS := clone.dts;
        }
        clone.dts := Some(clone.dts.value - firstVideoDTS.value);
      }
      if clone.pts.Some? {
        if firstVideoPTS.None? {
          firstVideoPTS := clone.pts;
        }
        clone.pts := Some(clone.pts.value - firstVideoPTS.value);
      }
      EnforceMonotonicity(clone);
    }
  }

  // ------------------------------------------------------------------ runs of the guard

  /** The DTS values entering the guard. */
  function Inputs(ps: seq<Stamp>): seq<int> {
    if ps == [] then []
    else (if ps[0].dts.Some? then [ps[0].dts.value] else []) + Inputs(ps[1..])
  }

  function GuardRun(g: Guard, xs: seq<int>): (res: (Guard, seq<int>))
    ensures |res.1| == |xs|
    decreases |xs|
  {
    if xs == [] then (g, [])
    else
      var (g1, p) := Enforce(g, Stamp(Some(xs[0]), None));
      var (g2, ys) := GuardRun(g1, xs[1..]);
      (g2, [p.dts.value] + ys)
  }

  /** Stamps through the guard; only those with a DTS matter to it. */
  function StampRun(g: Guard, ps: seq<Stamp>): (Guard, seq<Stamp>)
    decreases |ps|
  {
    if ps == [] then (g, [])
    else
      var (g1, p) := Enforce(g, ps[0]);
      var (g2, qs) := StampRun(g1, ps[1..]);
      (g2, [p] + qs)
  }

  lemma InputsCons(p: Stamp, rest: seq<Stamp>)
    ensures Inputs([p] + rest) == (if p.dts.Some? then [p.dts.value] else []) + Inputs(rest)
  {
    assert ([p] + rest)[1..] == rest;
  }

  lemma GuardRunCons(g: Guard, x: int, xs: seq<int>)
    ensures var (g1, p) := Enforce(g, Stamp(Some(x), None));
            && p.dts.Some?
            && GuardRun(g, [x] + xs) == (GuardRun(g1, xs).0, [p.dts.value] + GuardRun(g1, xs).1)
  {
    assert ([x] + xs)[1..] == xs;
  }

  lemma EnforceByDts(g: Guard, p: Stamp)
    ensures p.dts.None? ==> Enforce(g, p) == (g, p)
    ensures p.dts.Some? ==>
              Enforce(g, p).0 == Enforce(g, Stamp(p.dts, None)).0
              && Enforce(g, p).1.dts == Enforce(g, Stamp(p.dts, None)).1.dts
              && Enforce(g, p).1.dts.Some?
  {
  }

  /** Packets without a DTS pass unchanged and leave no trace; the others go through the guard as if
      they were alone. */
  lemma {:induction false} OnlyDtsMatters(g: Guard, ps: seq<Stamp>)
    ensures Inputs(StampRun(g, ps).1) == GuardRun(g, Inputs(ps)).1
    ensures StampRun(g, ps).0 == GuardRun(g, Inputs(ps)).0
    ensures |StampRun(g, ps).1| == |ps|
    ensures forall i :: 0 <= i < |ps| && ps[i].dts.None? ==> StampRun(g, ps).1[i] == ps[i]
    decreases |ps|
  {
    if ps != [] {
      hide Enforce, Inputs, GuardRun;
      var p := ps[0];
      var (g1, q) := Enforce(g, p);
      OnlyDtsMatters(g1, ps[1..]);
      EnforceByDts(g, p);
      InputsCons(p, ps[1..]);
      InputsCons(q, StampRun(g1, ps[1..]).1);
      assert [p] + ps[1..] == ps;
      if p.dts.Some? {
        GuardRunCons(g, p.dts.value, Inputs(ps[1..]));
      } else {
        assert [] + Inputs(ps[1..]) == Inputs(ps[1..]);
        assert [] + Inputs(StampRun(g1, ps[1..]).1) == Inputs(StampRun(g1, ps[1..]).1);
      }
    }
  }

  /** The guard never changes the distance between PTS and DTS. */
  lemma GuardKeepsComposition(g: Guard, p: Stamp)
    requires p.dts.Some? && p.pts.Some?
    ensures var q := Enforce(g, p).1;
            && q.dts.Some? && q.pts.Some?
            && q.pts.value - q.dts.value == p.pts.value - p.dts.value
  {
  }

  predicate GapsWithin(last: Option<int>, ys: seq<int>, lo: int, hi: int) {
    && (last.Some? && ys != [] ==> lo <= ys[0] - last.value <= hi)
    && forall i :: 0 < i < |ys| ==> lo <= ys[i] - ys[i - 1] <= hi
  }

  /** On every run every emitted gap is between 1 tick and 2 seconds, and the offset only grows. */
  lemma {:induction false} GapsAreBounded(g: Guard, xs: seq<int>)
    ensures GapsWithin(g.last, GuardRun(g, xs).1, 1, 180000)
    ensures g.offset <= GuardRun(g, xs).0.offset
    decreases |xs|
  {
    if xs != [] {
      var g1 := Enforce(g, Stamp(Some(xs[0]), None)).0;
      GapsAreBounded(g1, xs[1..]);
      var ys := GuardRun(g, xs).1;
      var rest := GuardRun(g1, xs[1..]).1;
      assert ys[1..] == rest;
      forall i | 0 < i < |ys|
        ensures 1 <= ys[i] - ys[i - 1] <= 180000
      {
        assert ys[i] == rest[i - 1];
        if i > 1 {
          assert ys[i - 1] == rest[i - 2];
        }
      }
    }
  }

  // ------------------------------------------------------------------ no forward jump

  /** The guard of the forward-jump branch is false all along. */
  predicate NoForwardJump(g: Guard, xs: seq<int>)
    decreases |xs|
  {
    xs != [] ==>
      && (g.last.Some? ==> xs[0] - g.offset - g.last.value <= MAX_FORWARD)
      && NoForwardJump(Enforce(g, Stamp(Some(xs[0]), None)).0, xs[1..])
  }

  /** What a caller can check of the input alone: no step forward of more than 2 s. */
  lemma {:induction false} SteadyGaps(g: Guard, xs: seq<int>)
    requires g.last.Some? && xs != [] ==> xs[0] - g.offset - g.last.value <= MAX_FORWARD
    requires forall i :: 0 < i < |xs| ==> xs[i] - xs[i - 1] <= MAX_FORWARD
    ensures NoForwardJump(g, xs)
    decreases |xs|
  {
    if xs != [] {
      SteadyGaps(Enforce(g, Stamp(Some(xs[0]), None)).0, xs[1..]);
    }
  }

  function Minus(xs: seq<int>, amount: int): (ys: seq<int>)
    ensures |ys| == |xs|
  {
    seq(|xs|, i requires 0 <= i < |xs| => xs[i] - amount)
  }

  /** Without forward jumps the guard is the bump rule on the offset-corrected input. */
  lemma {:induction false} GuardIsBump(g: Guard, xs: seq<int>)
    requires NoForwardJump(g, xs)
    ensures GuardRun(g, xs).1 == Bump.Run(g.last, Minus(xs, g.offset))
    ensures GuardRun(g, xs).0.offset == g.offset
    decreases |xs|
  {
    if xs != [] {
      var g1 := Enforce(g, Stamp(Some(xs[0]), None)).0;
      GuardIsBump(g1, xs[1..]);
      assert Minus(xs, g.offset)[1..] == Minus(xs[1..], g.offset);
    }
  }

  /** Hence the emitted DTS is the least strictly increasing sequence above the input, with the
      closed form of Bump.Carried. */
  lemma LeastIncreasingMajorant(g: Guard, xs: seq<int>, zs: seq<int>)
    requires NoForwardJump(g, xs)
    ensures var (ins, ys) := (Minus(xs, g.offset), GuardRun(g, xs).1);
            && Bump.Rising(g.last, ys) && Bump.Above(ins, ys)
            && (Bump.Rising(g.last, zs) && Bump.Above(ins, zs) ==> Bump.Above(ys, zs))
            && forall i :: 0 <= i < |xs| ==> ys[i] == Bump.Carried(g.last, ins, i)
  {
    var ins := Minus(xs, g.offset);
    GuardIsBump(g, xs);
    Bump.RunRises(g.last, ins);
    if Bump.Rising(g.last, zs) && Bump.Above(ins, zs) {
      Bump.RunIsLeast(g.last, ins, zs);
    }
    forall i | 0 <= i < |xs|
      ensures GuardRun(g, xs).1[i] == Bump.Carried(g.last, ins, i)
    {
      Bump.RunIsCarried(g.last, ins, i);
    }
  }

  /** A clock that steps back and then advances by pace per packet is back on its own time, as far
      as the guard shows it, exactly from the packet on where the extra pace has made up the step. */
  lemma GuardRecovers(g: Guard, xs: seq<int>, back: int, pace: nat, k: nat)
    requires g.last.Some? && pace >= 1 && k < |xs| && NoForwardJump(g, xs)
    requires Minus(xs, g.offset) == Bump.SteppedBack(g.last.value, back, pace, |xs|)
    ensures GuardRun(g, xs).1[k] == xs[k] - g.offset <==> (k + 1) * (pace - 1) >= back
  {
    GuardIsBump(g, xs);
    Bump.RecoveryIsExact(g.last.value, back, pace, |xs|, k);
  }

  // ------------------------------------------------------------------ exact re-basing

  /** The guard is in step with its input: the last emitted value is the last input, re-based. */
  predicate InStep(g: Guard, prev: int) {
    g.last == Some(prev - g.offset)
  }

  function Clipped(gap: int): int {
    if gap <= 180000 then gap else 3000
  }

  /** What the jumps of a run add up to. */
  function Cut(prev: int, xs: seq<int>): int
    decreases |xs|
  {
    if xs == [] then 0
    else (xs[0] - prev) - Clipped(xs[0] - prev) + Cut(xs[0], xs[1..])
  }

  /** A clock that only moves forward keeps every gap up to 2 s and has every longer one replaced by
      one frame, for any number of jumps; the offset is exactly what was cut out. */
  lemma {:induction false} ExactRebasing(g: Guard, prev: int, xs: seq<int>)
    requires InStep(g, prev) && Bump.Rising(Some(prev), xs)
    ensures var (g', ys) := GuardRun(g, xs);
            && (forall i :: 0 <= i < |xs| ==>
                  Bump.GapAt(prev - g.offset, ys, i) == Clipped(Bump.GapAt(prev, xs, i)))
            && g'.offset == g.offset + Cut(prev, xs)
            && InStep(g', if xs == [] then prev else xs[|xs| - 1])
    decreases |xs|
  {
    if xs != [] {
      var g1 := Enforce(g, Stamp(Some(xs[0]), None)).0;
      assert Bump.Rising(Some(xs[0]), xs[1..]);
      ExactRebasing(g1, xs[0], xs[1..]);
      var ys := GuardRun(g, xs).1;
      var rest := GuardRun(g1, xs[1..]).1;
      assert ys[1..] == rest && ys[0] == xs[0] - g1.offset;
      forall i | 0 <= i < |xs|
        ensures Bump.GapAt(prev - g.offset, ys, i) == Clipped(Bump.GapAt(prev, xs, i))
      {
        if i > 0 {
          assert Bump.GapAt(prev, xs, i) == Bump.GapAt(xs[0], xs[1..], i - 1);
          assert Bump.GapAt(prev - g.offset, ys, i) == Bump.GapAt(xs[0] - g1.offset, rest, i - 1);
        }
      }
    }
  }

  // ------------------------------------------------------------------ anchoring

  /** PTS and DTS are anchored separately, so the path shifts their distance by a constant: the
      distance between the two anchors. PTS stays at or after DTS exactly when the packet's own
      distance is at least that. */
  lemma AnchoringShiftsComposition(s: State, p: Stamp)
    requires p.dts.Some? && p.pts.Some? && s.anchor.dts.Some? && s.anchor.pts.Some?
    ensures var q := Mux(s, p).1;
            && q.dts.Some? && q.pts.Some?
            && q.pts.value - q.dts.value
               == (p.pts.value - p.dts.value) - (s.anchor.pts.value - s.anchor.dts.value)
            && (q.pts.value >= q.dts.value
                <==> p.pts.value - p.dts.value >= s.anchor.pts.value - s.anchor.dts.value)
  {
  }

  /** The first packet with timestamps fixes the anchors and comes out at zero. */
  lemma FirstPacketAtZero(p: Stamp)
    requires p.pts.Some?
    ensures var (s, q) := Mux(INITIAL, p);
            && q == Stamp(Some(0), Some(0))
            && s.anchor == Anchor(if p.dts.Some? then p.dts else p.pts, p.pts)
            && s.guard == Guard(Some(0), 0)
  {
  }

  function MuxRun(s: State, ps: seq<Stamp>): (State, seq<Stamp>)
    decreases |ps|
  {
    if ps == [] then (s, [])
    else
      var (s1, q) := Mux(s, ps[0]);
      var (s2, qs) := MuxRun(s1, ps[1..]);
      (s2, [q] + qs)
  }

  /** Once anchored, one packet through the path. */
  lemma MuxByDts(s: State, p: Stamp)
    requires s.anchor.dts.Some?
    ensures var (s1, q) := Mux(s, p);
            && s1.anchor.dts == s.anchor.dts
            && (Filled(p).dts.None? ==> s1.guard == s.guard && q.dts.None?)
            && (Filled(p).dts.Some? ==>
                  var (g1, r) := Enforce(s.guard,
                                         Stamp(Some(Filled(p).dts.value - s.anchor.dts.value), None));
                  s1.guard == g1 && q.dts == r.dts && q.dts.Some?)
  {
    hide Correction;
  }

  lemma MinusCons(x: int, xs: seq<int>, amount: int)
    ensures Minus([x] + xs, amount) == [x - amount] + Minus(xs, amount)
  {
  }

  /** The whole path in terms of the guard: once anchored, the muxer is the guard on the anchored
      DTS, whatever the packets are. */
  lemma {:induction false} MuxIsGuardOnAnchored(s: State, ps: seq<Stamp>)
    requires s.anchor.dts.Some?
    ensures Inputs(MuxRun(s, ps).1)
            == GuardRun(s.guard, Minus(Inputs(AllFilled(ps)), s.anchor.dts.value)).1
    ensures MuxRun(s, ps).0.anchor.dts == s.anchor.dts
    decreases |ps|
  {
    if ps != [] {
      hide Mux, Enforce, Inputs, GuardRun, Minus, Filled;
      var a, p := s.anchor.dts.value, Filled(ps[0]);
      var (s1, q) := Mux(s, ps[0]);
      var rest := Inputs(AllFilled(ps[1..]));
      MuxByDts(s, ps[0]);
      MuxIsGuardOnAnchored(s1, ps[1..]);
      assert AllFilled(ps) == [p] + AllFilled(ps[1..]);
      InputsCons(p, AllFilled(ps[1..]));
      InputsCons(q, MuxRun(s1, ps[1..]).1);
      if p.dts.Some? {
        MinusCons(p.dts.value, rest, a);
        GuardRunCons(s.guard, p.dts.value - a, Minus(rest, a));
      } else {
        assert [] + rest == rest;
        assert [] + Inputs(MuxRun(s1, ps[1..]).1) == Inputs(MuxRun(s1, ps[1..]).1);
      }
    }
  }

  /** The whole path from the first packet on, which sets the anchors when it has a PTS: it comes out
      at zero, and everything after it is the guard on the anchored DTS. */
  lemma MuxFromStart(ps: seq<Stamp>)
    requires ps != [] && ps[0].pts.Some?
    ensures Inputs(MuxRun(INITIAL, ps).1)
            == [0] + GuardRun(Guard(Some(0), 0),
                              Minus(Inputs(AllFilled(ps[1..])), Filled(ps[0]).dts.value)).1
  {
    var (s, q) := Mux(INITIAL, ps[0]);
    FirstPacketAtZero(ps[0]);
    MuxIsGuardOnAnchored(s, ps[1..]);
    hide Mux, GuardRun;
    assert MuxRun(INITIAL, ps).1 == [q] + MuxRun(s, ps[1..]).1;
  }

  function AllFilled(ps: seq<Stamp>): (qs: seq<Stamp>)
    ensures |qs| == |ps|
  {
    seq(|ps|, i requires 0 <= i < |ps| => Filled(ps[i]))
  }
}
