/** The recorder's timestamp pipeline inside one segment: normalise to the stream's first packet,
    rescale to the file's time base, sanitise. Every packet carries both timestamps here. */
module SegmentRecorder {
  import opened Options
  import Bump

  datatype Packet = Packet(stream: int, dts: int, pts: int)

  /** Truncating division of non-negative numbers. */
  function Trunc(x: nat, n: nat): nat
    requires n > 0
  {
    x / n
  }

  /** A time base num/den in seconds per tick. */
  datatype TimeBase = TimeBase(num: nat, den: nat) {
    predicate Ok() {
      num > 0 && den > 0
    }

    /** (int64_t)(2.0 / tb) */
    function MaxDelta(): nat
      requires Ok()
    {
      Trunc(2 * den, num)
    }

    /** (int64_t)(0.033 / tb) */
    function Fallback(): nat
      requires Ok()
    {
      Trunc(33 * den, 1000 * num)
    }
  }

  /** One stream's tracker: anchor of the segment, last written DTS, permanent offset. */
  datatype Track = Track(start: Option<int>, last: Option<int>, jump: int)

  const FRESH: Track := Track(None, None, 0)

  datatype Config = Config(rescale: int -> int, base: TimeBase)

  function ClampedFrom(start: int, x: int): int {
    if x - start < 0 then 0 else x - start
  }

  /** normalizeTimeline on one stream, the anchor being set by its first packet. */
  function Normalize(t: Track, p: Packet): (Track, Packet) {
    var t1 := if t.start.None? then t.(start := Some(p.dts)) else t;
    (t1, p.(dts := ClampedFrom(t1.start.value, p.dts), pts := ClampedFrom(t1.start.value, p.pts)))
  }

  function Rescale(c: Config, p: Packet): Packet {
    p.(dts := c.rescale(p.dts), pts := c.rescale(p.pts))
  }

  function Sanitize(b: TimeBase, t: Track, p: Packet): (Track, Packet)
    requires b.Ok()
  {
    var d := p.dts - t.jump;
    var back := if t.last.Some? && d <= t.last.value then t.last.value - d + 1 else 0;
    var cut := if t.last.Some? && d - t.last.value > b.MaxDelta()
               then d - t.last.value - b.Fallback() else 0;
    var move := back - cut;
    (Track(t.start, Some(d + move), t.jump + cut),
     p.(dts := d + move, pts := p.pts - t.jump + move))
  }

  function Process(c: Config, t: Track, p: Packet): (Track, Packet)
    requires c.base.Ok()
  {
    var (t1, p1) := Normalize(t, p);
    Sanitize(c.base, t1, Rescale(c, p1))
  }

  /** One stream's packets through the pipeline, alone. */
  function TrackRun(c: Config, t: Track, ps: seq<Packet>): (res: (Track, seq<Packet>))
    requires c.base.Ok()
    ensures |res.1| == |ps|
    decreases |ps|
  {
    if ps == [] then (t, [])
    else
      var (t1, q) := Process(c, t, ps[0]);
      var (t2, qs) := TrackRun(c, t1, ps[1..]);
      (t2, [q] + qs)
  }

  // ------------------------------------------------------------------ the recorder object

  /** What a segment is recorded with: input stream numbers, the streams' rescaling and output time
      bases. Output stream 0 is the first stream present. */
  datatype Setup = Setup(inVideo: Option<int>, inAudio: Option<int>, video: Config, audio: Config) {
    predicate Ok() {
      && video.base.Ok() && audio.base.Ok()
      && (inVideo.Some? ==> inVideo.value >= 0) && (inAudio.Some? ==> inAudio.value >= 0)
      && (inVideo.Some? && inAudio.Some? ==> inVideo.value != inAudio.value)
    }
  }

  datatype Route = Video | Audio | Unknown

  function RouteOf(s: Setup, stream: int): Route {
    if s.inVideo == Some(stream) then Video
    else if s.inAudio == Some(stream) then Audio
    else Unknown
  }

  datatype State = State(video: Track, audio: Track)

  /** One packet: unknown streams are ignored, audio is dropped until video is anchored. */
  function WriteStep(s: Setup, st: State, p: Packet): (State, seq<Packet>)
    requires s.Ok()
  {
    match RouteOf(s, p.stream)
    case Unknown => (st, [])
    case Video =>
      var (t, q) := Process(s.video, st.video, p);
      (st.(video := t), [q])
    case Audio =>
      if st.video.start.None? then (st, [])
      else
        var (t, q) := Process(s.audio, st.audio, p);
        (st.(audio := t), [q])
  }

  class Recorder {
    const setup: Setup
    var isRecording: bool
    var startVideoTime: Option<int>
    var startAudioTime: Option<int>
    var lastVideoDTS: Option<int>
    var lastAudioDTS: Option<int>
    var videoJumpOffset: int
    var audioJumpOffset: int
    /** The packets handed to the file, in order, with their input stream number. */
    var written: seq<Packet>

    constructor (setup: Setup)
      requires setup.Ok()
      ensures this.setup == setup && !isRecording && written == []
    {
      this.setup := setup;
      isRecording := false;
      startVideoTime, startAudioTime, lastVideoDTS, lastAudioDTS := None, None, None, None;
      videoJumpOffset, audioJumpOffset := 0, 0;
      written := [];
    }

    function View(): State
      reads this
    {
      State(Track(startVideoTime, lastVideoDTS, videoJumpOffset),
            Track(startAudioTime, lastAudioDTS, audioJumpOffset))
    }

    /** Every tracker is reset, also when the file then fails to open. */
    method StartSegment(opens: bool) returns (ok: bool)
      modifies this
      ensures View() == State(FRESH, FRESH) && written == []
      ensures ok == opens == isRecording
    {
      isRecording := false;
      lastVideoDTS, lastAudioDTS := None, None;
      startVideoTime, startAudioTime := None, None;
      videoJumpOffset, audioJumpOffset := 0, 0;
      written := [];
      if !opens {
        return false;
      }
      isRecording := true;
      return true;
    }

    /** The packet is changed in place in the source; here the changed packet is returned. */
    method NormalizeTimeline(packet: Packet, isVideo: bool) returns (accepted: bool, out: Packet)
      modifies this`startVideoTime, this`startAudioTime
      ensures accepted <==> isVideo || old(startVideoTime).Some?
      ensures !accepted ==> View() == old(View())
      ensures accepted && isVideo ==>
                (View().video, out) == Normalize(old(View()).video, packet)
                && View().audio == old(View()).audio
      ensures accepted && !isVideo ==>
                (View().audio, out) == Normalize(old(View()).audio, packet)
                && View().video == old(View()).video
    {
      out := packet;
      if startVideoTime.None? {
        if isVideo {
          startVideoTime := Some(packet.dts);
        } else {
          return false, out;
        }
      }
      if startAudioTime.None? && !isVideo {
        startAudioTime := Some(packet.dts);
      }
      var pts := packet.pts - if isVideo then startVideoTime.value else startAudioTime.value;
      if pts < 0 {
        pts := 0;
      }
      var dts := packet.dts - if isVideo then startVideoTime.value else startAudioTime.value;
      if dts < 0 {
        dts := 0;
      }
      out := packet.(dts := dts, pts := pts);
      return true, out;
    }

    method SanitizeTimestamps(packet: Packet, base: TimeBase, lastDTS: Option<int>, jumpOffset: int)
        returns (out: Packet, lastDTS': Option<int>, jumpOffset': int)
      requires base.Ok()
      ensures forall start ::
                (Track(start, lastDTS', jumpOffset'), out)
                == Sanitize(base, Track(start, lastDTS, jumpOffset), packet)
    {
      var dts := packet.dts - jumpOffset;
      var pts := packet.pts - jumpOffset;
      jumpOffset' := jumpOffset;
      if lastDTS.Some? {
        if dts <= lastDTS.value {
          var offset := lastDTS.value - dts + 1;
          dts := dts + offset;
          pts := pts + offset;
        } else {
          var currentDelta := dts - lastDTS.value;
          var maxAllowedDelta := base.MaxDelta();
          if currentDelta > maxAllowedDelta {
            var fallbackDelta := base.Fallback();
            var excessiveOffset := currentDelta - fallbackDelta;
            jumpOffset' := jumpOffset' + excessiveOffset;
            dts := dts - excessiveOffset;
            pts := pts - excessiveOffset;
          }
        }
      }
      out := packet.(dts := dts, pts := pts);
      lastDTS' := Some(dts);
    }

    method WritePacket(packet: Packet)
      requires setup.Ok()
      modifies this
      ensures isRecording == old(isRecording)
      ensures !isRecording ==> View() == old(View()) && written == old(written)
      ensures isRecording ==>
                (View(), written)
                == (WriteStep(setup, old(View()), packet).0,
                    old(written) + WriteStep(setup, old(View()), packet).1)
    {
      if !isRecording {
        return;
      }
      var route := RouteOf(setup, packet.stream);
      if route.Unknown? {
        assert written + [] == written;
        return;
      }
      var accepted, p := NormalizeTimeline(packet, route.Video?);
      if !accepted {
        assert written + [] == written;
        return;
      }
      if route.Video? {
        p := Rescale(setup.video, p);
        p, lastVideoDTS, videoJumpOffset :=
          SanitizeTimestamps(p, setup.video.base, lastVideoDTS, videoJumpOffset);
        assert (View().video, p) == Process(setup.video, old(View()).video, packet);
      } else {
        p := Rescale(setup.audio, p);
        p, lastAudioDTS, audioJumpOffset :=
          SanitizeTimestamps(p, setup.audio.base, lastAudioDTS, audioJumpOffset);
        assert (View().audio, p) == Process(setup.audio, old(View()).audio, packet);
      }
      written := written + [p];
    }
  }

  // ------------------------------------------------------------------ the two streams are separate

  function SegmentRun(s: Setup, st: State, ps: seq<Packet>): (State, seq<Packet>)
    requires s.Ok()
    decreases |ps|
  {
    if ps == [] then (st, [])
    else
      var (st1, q) := WriteStep(s, st, ps[0]);
      var (st2, qs) := SegmentRun(s, st1, ps[1..]);
      (st2, q + qs)
  }

  /** By stream number: the packets of the setup's video stream, of its audio stream, and the rest. */
  predicate Belongs(s: Setup, r: Route, p: Packet) {
    match r
    case Video => s.inVideo == Some(p.stream)
    case Audio => s.inAudio == Some(p.stream)
    case Unknown => s.inVideo != Some(p.stream) && s.inAudio != Some(p.stream)
  }

  function Only(s: Setup, r: Route, ps: seq<Packet>): seq<Packet> {
    if ps == [] then []
    else if Belongs(s, r, ps[0]) then [ps[0]] + Only(s, r, ps[1..])
    else Only(s, r, ps[1..])
  }

  /** The audio packets that arrive after the first video packet. */
  function AudioAfterVideo(s: Setup, anchored: bool, ps: seq<Packet>): seq<Packet>
    decreases |ps|
  {
    if ps == [] then []
    else if Belongs(s, Video, ps[0]) then AudioAfterVideo(s, true, ps[1..])
    else if Belongs(s, Audio, ps[0]) && anchored then [ps[0]] + AudioAfterVideo(s, anchored, ps[1..])
    else AudioAfterVideo(s, anchored, ps[1..])
  }

  lemma ProcessKeepsStream(c: Config, t: Track, p: Packet)
    requires c.base.Ok()
    ensures Process(c, t, p).1.stream == p.stream
    ensures Process(c, t, p).0.start.Some?
  {
  }

  /** Each stream's written packets are what its own packets alone give: video all of them, audio
      those after the first video packet. Neither stream's packets touch the other's tracker. */
  lemma {:induction false} StreamsAreSeparate(s: Setup, st: State, ps: seq<Packet>)
    requires s.Ok()
    ensures var (st', out) := SegmentRun(s, st, ps);
            var video := TrackRun(s.video, st.video, Only(s, Video, ps));
            var audio := TrackRun(s.audio, st.audio, AudioAfterVideo(s, st.video.start.Some?, ps));
            && Only(s, Video, out) == video.1 && Only(s, Audio, out) == audio.1
            && st' == State(video.0, audio.0)
            && Only(s, Unknown, out) == []
    decreases |ps|
  {
    hide Process;
    if ps != [] {
      var (st1, q) := WriteStep(s, st, ps[0]);
      var (st2, qs) := SegmentRun(s, st1, ps[1..]);
      StreamsAreSeparate(s, st1, ps[1..]);
      if q == [] {
        assert q + qs == qs;
      } else {
        assert q + qs == [q[0]] + qs && (q + qs)[1..] == qs;
        ProcessKeepsStream(s.video, st.video, ps[0]);
        ProcessKeepsStream(s.audio, st.audio, ps[0]);
      }
      var video, audio := Only(s, Video, ps), AudioAfterVideo(s, st.video.start.Some?, ps);
      match RouteOf(s, ps[0].stream)
      case Video => assert video[1..] == Only(s, Video, ps[1..]);
      case Audio =>
        assert st.video.start.Some? ==> audio[1..] == AudioAfterVideo(s, true, ps[1..]);
      case Unknown =>
    }
  }

  // ------------------------------------------------------------------ what one stream's file looks like

  /** FFmpeg's rescaling: order kept, zero kept. */
  ghost predicate Monotone(f: int -> int) {
    f(0) == 0 && forall x, y :: x <= y ==> f(x) <= f(y)
  }

  /** The two deltas are the most whole ticks in two seconds and in 33 ms. */
  lemma DeltasInTicks(b: TimeBase)
    requires b.Ok()
    ensures b.MaxDelta() * b.num <= 2 * b.den < (b.MaxDelta() + 1) * b.num
    ensures 1000 * (b.Fallback() * b.num) <= 33 * b.den < 1000 * ((b.Fallback() + 1) * b.num)
  {
    hide Trunc;
    var m, f, n := b.MaxDelta(), b.Fallback(), b.num;
    TruncBounds(2 * b.den, n);
    TruncBounds(33 * b.den, 1000 * n);
    Products(m, n);
    Products(f, n);
  }

  lemma Products(k: nat, n: nat)
    ensures (k + 1) * n == k * n + n && k * (1000 * n) == 1000 * (k * n)
  {
  }

  /** Every packet's PTS is at or after its DTS. */
  predicate Composed(ps: seq<Packet>) {
    forall i :: 0 <= i < |ps| ==> ps[i].dts <= ps[i].pts
  }

  predicate GapsWithin(last: Option<int>, qs: seq<Packet>, lo: int, hi: int) {
    && (last.Some? && qs != [] ==> lo <= qs[0].dts - last.value <= hi)
    && forall i :: 0 < i < |qs| ==> lo <= qs[i].dts - qs[i - 1].dts <= hi
  }

  lemma TruncBounds(x: nat, n: nat)
    requires n > 0
    ensures Trunc(x, n) * n <= x < Trunc(x, n) * n + n
    ensures Trunc(x, n) >= 1 <==> x >= n
  {
  }

  lemma FallbackBelowMax(b: TimeBase)
    requires b.Ok()
    ensures b.Fallback() <= b.MaxDelta()
  {
    var n, f, m := b.num, b.Fallback(), b.MaxDelta();
    TruncBounds(33 * b.den, 1000 * n);
    TruncBounds(2 * b.den, n);
    assert f * (1000 * n) == 1000 * (f * n);
    assert f * n < m * n + n;
    AtMost(f, m, n);
  }

  lemma AtMost(f: nat, m: nat, n: nat)
    requires f * n < m * n + n
    ensures f <= m
  {
    if m < f {
      TimesMonotone(m + 1, f, n);
    }
  }

  lemma TimesMonotone(a: nat, b: nat, n: nat)
    requires a <= b
    ensures a * n <= b * n
  {
    assert b * n == a * n + (b - a) * n;
  }

  lemma ProcessStep(c: Config, t: Track, p: Packet)
    requires c.base.Ok() && Monotone(c.rescale)
    ensures var (t', q) := Process(c, t, p);
            && t'.last == Some(q.dts)
            && (p.dts <= p.pts ==> q.dts <= q.pts)
            && (t == FRESH ==> q.dts == 0)
            && (t.last.Some? && c.base.Fallback() >= 1 ==>
                  1 <= q.dts - t.last.value)
            && (t.last.Some? ==>
                  q.dts - t.last.value <= if c.base.MaxDelta() >= 1 then c.base.MaxDelta() else 1)
  {
    FallbackBelowMax(c.base);
    var (t1, p1) := Normalize(t, p);
    if p.dts <= p.pts {
      assert c.rescale(p1.dts) <= c.rescale(p1.pts);
    }
  }

  lemma GapsCons(last: Option<int>, q: Packet, rest: seq<Packet>, lo: int, hi: int)
    requires GapsWithin(Some(q.dts), rest, lo, hi)
    requires last.Some? ==> lo <= q.dts - last.value <= hi
    ensures GapsWithin(last, [q] + rest, lo, hi)
  {
    var qs := [q] + rest;
    forall i | 0 < i < |qs|
      ensures lo <= qs[i].dts - qs[i - 1].dts <= hi
    {
      assert qs[i] == rest[i - 1] && (i > 1 ==> qs[i - 1] == rest[i - 2]);
    }
  }

  lemma ComposedCons(ps: seq<Packet>, q: Packet, rest: seq<Packet>)
    requires ps != [] && Composed(ps)
    requires ps[0].dts <= ps[0].pts ==> q.dts <= q.pts
    requires Composed(ps[1..]) ==> Composed(rest)
    ensures Composed([q] + rest)
  {
    assert Composed(ps[1..]);
  }

  /** One stream of one segment: written DTS starts at zero and rises by 1 tick to the allowed
      maximum each packet, and PTS stays at or after DTS where it was. */
  lemma {:induction false} WrittenStream(c: Config, t: Track, ps: seq<Packet>)
    requires c.base.Ok() && Monotone(c.rescale) && c.base.Fallback() >= 1
    ensures var qs := TrackRun(c, t, ps).1;
            && GapsWithin(t.last, qs, 1, c.base.MaxDelta())
            && (Composed(ps) ==> Composed(qs))
            && (t == FRESH && qs != [] ==> qs[0].dts == 0)
    decreases |ps|
  {
    hide Process, Monotone;
    if ps == [] {
      assert TrackRun(c, t, ps).1 == [];
    } else {
      hide GapsWithin, Composed;
      var (t1, q) := Process(c, t, ps[0]);
      var rest := TrackRun(c, t1, ps[1..]).1;
      FallbackBelowMax(c.base);
      ProcessStep(c, t, ps[0]);
      WrittenStream(c, t1, ps[1..]);
      GapsCons(t.last, q, rest, 1, c.base.MaxDelta());
      if Composed(ps) {
        ComposedCons(ps, q, rest);
      }
    }
  }

  // ------------------------------------------------------------------ the bump rule

  /** One stream's DTS values as the sanitiser gets them, the permanent offset taken off: measured
      from the segment's anchor, not below it, and rescaled. */
  function Incoming(c: Config, t: Track, ps: seq<Packet>): (xs: seq<int>)
    ensures |xs| == |ps|
  {
    if ps == [] then []
    else
      var start := if t.start.Some? then t.start.value else ps[0].dts;
      seq(|ps|, i requires 0 <= i < |ps| => c.rescale(ClampedFrom(start, ps[i].dts)) - t.jump)
  }

  function DtsOf(ps: seq<Packet>): (xs: seq<int>)
    ensures |xs| == |ps|
  {
    seq(|ps|, i requires 0 <= i < |ps| => ps[i].dts)
  }

  /** The guard of the forward-jump branch is false all along. */
  predicate NoForwardJump(c: Config, t: Track, ps: seq<Packet>)
    requires c.base.Ok()
    decreases |ps|
  {
    ps != [] ==>
      && (t.last.Some? ==> Incoming(c, t, ps)[0] - t.last.value <= c.base.MaxDelta())
      && NoForwardJump(c, Process(c, t, ps[0]).0, ps[1..])
  }

  lemma ProcessIsBump(c: Config, t: Track, ps: seq<Packet>)
    requires c.base.Ok() && ps != []
    requires t.last.Some? ==> Incoming(c, t, ps)[0] - t.last.value <= c.base.MaxDelta()
    ensures var (t1, q) := Process(c, t, ps[0]);
            && q.dts == Bump.Step(t.last, Incoming(c, t, ps)[0])
            && t1.last == Some(q.dts) && t1.jump == t.jump
            && Incoming(c, t1, ps[1..]) == Incoming(c, t, ps)[1..]
  {
  }

  /** Without forward jumps the sanitiser is the bump rule. */
  lemma {:induction false} RepairIsBump(c: Config, t: Track, ps: seq<Packet>)
    requires c.base.Ok() && NoForwardJump(c, t, ps)
    ensures DtsOf(TrackRun(c, t, ps).1) == Bump.Run(t.last, Incoming(c, t, ps))
    decreases |ps|
  {
    hide Process, Incoming;
    if ps != [] {
      var (t1, q) := Process(c, t, ps[0]);
      ProcessIsBump(c, t, ps);
      RepairIsBump(c, t1, ps[1..]);
      var rest := TrackRun(c, t1, ps[1..]).1;
      assert DtsOf([q] + rest) == [q.dts] + DtsOf(rest);
    }
  }

  /** Hence the written DTS is the least strictly increasing sequence above what comes in, with the
      closed form of Bump.Carried. */
  lemma RepairIsLeast(c: Config, t: Track, ps: seq<Packet>, zs: seq<int>)
    requires c.base.Ok() && NoForwardJump(c, t, ps)
    ensures var (ins, ys) := (Incoming(c, t, ps), DtsOf(TrackRun(c, t, ps).1));
            && Bump.Rising(t.last, ys) && Bump.Above(ins, ys)
            && (Bump.Rising(t.last, zs) && Bump.Above(ins, zs) ==> Bump.Above(ys, zs))
            && forall i :: 0 <= i < |ps| ==> ys[i] == Bump.Carried(t.last, ins, i)
  {
    var ins := Incoming(c, t, ps);
    RepairIsBump(c, t, ps);
    Bump.RunRises(t.last, ins);
    if Bump.Rising(t.last, zs) && Bump.Above(ins, zs) {
      Bump.RunIsLeast(t.last, ins, zs);
    }
    forall i | 0 <= i < |ps|
      ensures DtsOf(TrackRun(c, t, ps).1)[i] == Bump.Carried(t.last, ins, i)
    {
      Bump.RunIsCarried(t.last, ins, i);
    }
  }

  /** What can be checked of the input alone: no step forward beyond the allowed maximum. A fresh
      segment has no last DTS, so there only the gaps count. */
  lemma {:induction false} SteadyInput(c: Config, t: Track, ps: seq<Packet>)
    requires c.base.Ok()
    requires t.last.Some? && ps != [] ==> Incoming(c, t, ps)[0] - t.last.value <= c.base.MaxDelta()
    requires forall i :: 0 < i < |ps| ==>
               Incoming(c, t, ps)[i] - Incoming(c, t, ps)[i - 1] <= c.base.MaxDelta()
    ensures NoForwardJump(c, t, ps)
    decreases |ps|
  {
    hide Process, Incoming;
    if ps != [] {
      var t1 := Process(c, t, ps[0]).0;
      var ins := Incoming(c, t, ps);
      ProcessIsBump(c, t, ps);
      assert forall i :: 0 <= i < |ps| - 1 ==> Incoming(c, t1, ps[1..])[i] == ins[i + 1];
      SteadyInput(c, t1, ps[1..]);
    }
  }

  // ------------------------------------------------------------------ exact re-basing

  /** Time since the anchor, zero before it. */
  function Since(start: int, x: int): nat {
    if x <= start then 0 else x - start
  }

  /** DTS as it comes in: measured from the anchor, not below it, and rescaled. */
  function Raw(c: Config, start: int, ps: seq<Packet>): (xs: seq<int>)
    ensures |xs| == |ps|
  {
    seq(|ps|, i requires 0 <= i < |ps| => c.rescale(Since(start, ps[i].dts)))
  }

  function Clipped(b: TimeBase, gap: int): int
    requires b.Ok()
  {
    if gap <= b.MaxDelta() then gap else b.Fallback()
  }

  /** What the jumps of a run add up to. */
  function Cut(b: TimeBase, prev: int, xs: seq<int>): int
    requires b.Ok()
    decreases |xs|
  {
    if xs == [] then 0
    else (xs[0] - prev) - Clipped(b, xs[0] - prev) + Cut(b, xs[0], xs[1..])
  }

  lemma RawStep(c: Config, t: Track, start: int, prev: int, ps: seq<Packet>)
    requires c.base.Ok() && ps != []
    requires t.start == Some(start) && t.last == Some(prev - t.jump)
    requires prev < Raw(c, start, ps)[0]
    ensures var (t1, q) := Process(c, t, ps[0]);
            var x := Raw(c, start, ps)[0];
            && q.dts - t.last.value == Clipped(c.base, x - prev)
            && t1 == Track(t.start, Some(q.dts), t.jump + (x - prev) - Clipped(c.base, x - prev))
            && t1.last == Some(x - t1.jump)
            && Raw(c, start, ps[1..]) == Raw(c, start, ps)[1..]
  {
    assert Since(start, ps[0].dts) == ClampedFrom(start, ps[0].dts);
    assert Raw(c, start, ps)[0] == c.rescale(ClampedFrom(start, ps[0].dts));
  }

  lemma GapsStep(c: Config, q: Packet, rest: seq<Packet>, last: int, prev: int, xs: seq<int>)
    requires c.base.Ok() && |xs| == |rest| + 1
    requires q.dts - last == Clipped(c.base, xs[0] - prev)
    requires forall i :: 0 <= i < |rest| ==>
               Bump.GapAt(q.dts, DtsOf(rest), i) == Clipped(c.base, Bump.GapAt(xs[0], xs[1..], i))
    ensures forall i :: 0 <= i < |xs| ==>
              Bump.GapAt(last, DtsOf([q] + rest), i) == Clipped(c.base, Bump.GapAt(prev, xs, i))
  {
    var ys := DtsOf([q] + rest);
    forall i | 0 <= i < |xs|
      ensures Bump.GapAt(last, ys, i) == Clipped(c.base, Bump.GapAt(prev, xs, i))
    {
      if i > 0 {
        assert Bump.GapAt(last, ys, i) == Bump.GapAt(q.dts, DtsOf(rest), i - 1);
        assert Bump.GapAt(prev, xs, i) == Bump.GapAt(xs[0], xs[1..], i - 1);
      }
    }
  }

  /** A clock that only moves forward keeps every gap up to the allowed maximum and has every longer
      one replaced by the fallback, for any number of jumps; the offset is exactly what was cut. */
  lemma {:induction false} ExactRebasing(c: Config, t: Track, start: int, prev: int, ps: seq<Packet>)
    requires c.base.Ok() && t.start == Some(start) && t.last == Some(prev - t.jump)
    requires Bump.Rising(Some(prev), Raw(c, start, ps))
    ensures var (t', qs) := TrackRun(c, t, ps);
            var xs := Raw(c, start, ps);
            && (forall i :: 0 <= i < |ps| ==>
                  Bump.GapAt(prev - t.jump, DtsOf(qs), i) == Clipped(c.base, Bump.GapAt(prev, xs, i)))
            && t'.jump == t.jump + Cut(c.base, prev, xs)
            && t'.last == Some((if ps == [] then prev else xs[|ps| - 1]) - t'.jump)
    decreases |ps|
  {
    hide Process, Raw, Clipped, DtsOf, Bump.GapAt;
    if ps != [] {
      var (t1, q) := Process(c, t, ps[0]);
      var xs := Raw(c, start, ps);
      RawStep(c, t, start, prev, ps);
      assert Bump.Rising(Some(xs[0]), xs[1..]);
      ExactRebasing(c, t1, start, xs[0], ps[1..]);
      GapsStep(c, q, TrackRun(c, t1, ps[1..]).1, t.last.value, prev, xs);
    }
  }

  /** A whole segment of a clock that only moves forward: it starts at zero, and every later gap is
      the input's or the fallback. */
  lemma SegmentRebasing(c: Config, ps: seq<Packet>)
    requires c.base.Ok() && c.rescale(0) == 0 && ps != []
    requires Bump.Rising(Some(0), Raw(c, ps[0].dts, ps[1..]))
    ensures var qs := TrackRun(c, FRESH, ps).1;
            && qs[0].dts == 0
            && forall i :: 0 <= i < |ps| - 1 ==>
                 Bump.GapAt(0, DtsOf(qs[1..]), i)
                 == Clipped(c.base, Bump.GapAt(0, Raw(c, ps[0].dts, ps[1..]), i))
  {
    var (t1, q) := Process(c, FRESH, ps[0]);
    assert t1 == Track(Some(ps[0].dts), Some(0), 0) && q.dts == 0;
    ExactRebasing(c, t1, ps[0].dts, 0, ps[1..]);
    assert TrackRun(c, FRESH, ps).1[1..] == TrackRun(c, t1, ps[1..]).1;
  }

  /** Whatever the pipeline does to a packet it does to both stamps: the written PTS is as far after
      the written DTS as the two are apart after normalising and rescaling. */
  lemma {:induction false} CompositionKept(c: Config, t: Track, ps: seq<Packet>, i: nat)
    requires c.base.Ok() && i < |ps|
    ensures var start := if t.start.Some? then t.start.value else ps[0].dts;
            var q := TrackRun(c, t, ps).1[i];
            && q.pts - q.dts == c.rescale(Since(start, ps[i].pts))
                                - c.rescale(Since(start, ps[i].dts))
            && q.stream == ps[i].stream
    decreases |ps|
  {
    var t1 := Process(c, t, ps[0]).0;
    assert t1.start == Some(if t.start.Some? then t.start.value else ps[0].dts);
    if i > 0 {
      CompositionKept(c, t1, ps[1..], i - 1);
      assert TrackRun(c, t, ps).1[i] == TrackRun(c, t1, ps[1..]).1[i - 1];
    }
  }

  /** The whole segment, from StartSegment on: both streams at once. */
  lemma WrittenSegment(s: Setup, ps: seq<Packet>)
    requires s.Ok() && Monotone(s.video.rescale) && Monotone(s.audio.rescale)
    requires s.video.base.Fallback() >= 1 && s.audio.base.Fallback() >= 1 && Composed(ps)
    ensures var out := SegmentRun(s, State(FRESH, FRESH), ps).1;
            var (video, audio) := (Only(s, Video, out), Only(s, Audio, out));
            && GapsWithin(None, video, 1, s.video.base.MaxDelta()) && Composed(video)
            && GapsWithin(None, audio, 1, s.audio.base.MaxDelta()) && Composed(audio)
            && (video != [] ==> video[0].dts == 0) && (audio != [] ==> audio[0].dts == 0)
            && |video| == |Only(s, Video, ps)|
            && |audio| == |AudioAfterVideo(s, false, ps)|
            && (out != [] ==> Belongs(s, Video, out[0]))
  {
    StreamsAreSeparate(s, State(FRESH, FRESH), ps);
    OnlyComposed(s, Video, ps);
    AudioComposed(s, false, ps);
    WrittenStream(s.video, FRESH, Only(s, Video, ps));
    WrittenStream(s.audio, FRESH, AudioAfterVideo(s, false, ps));
    VideoFirst(s, State(FRESH, FRESH), ps);
  }

  lemma {:induction false} OnlyComposed(s: Setup, r: Route, ps: seq<Packet>)
    requires Composed(ps)
    ensures Composed(Only(s, r, ps))
  {
    if ps != [] {
      assert Composed(ps[1..]);
      OnlyComposed(s, r, ps[1..]);
    }
  }

  lemma {:induction false} AudioComposed(s: Setup, anchored: bool, ps: seq<Packet>)
    requires Composed(ps)
    ensures Composed(AudioAfterVideo(s, anchored, ps))
    decreases |ps|
  {
    if ps != [] {
      assert Composed(ps[1..]);
      AudioComposed(s, true, ps[1..]);
      AudioComposed(s, anchored, ps[1..]);
    }
  }

  /** No audio before the first video packet. */
  lemma {:induction false} VideoFirst(s: Setup, st: State, ps: seq<Packet>)
    requires s.Ok() && st.video.start.None?
    ensures var out := SegmentRun(s, st, ps).1;
            out != [] ==> Belongs(s, Video, out[0])
    decreases |ps|
  {
    if ps != [] {
      var (st1, q) := WriteStep(s, st, ps[0]);
      if Belongs(s, Video, ps[0]) {
        ProcessKeepsStream(s.video, st.video, ps[0]);
      } else {
        VideoFirst(s, st1, ps[1..]);
        assert q + SegmentRun(s, st1, ps[1..]).1 == SegmentRun(s, st1, ps[1..]).1;
      }
    }
  }

  /** A stream already in the file's time base is written with rising DTS. */
  predicate RisesOn(b: TimeBase, ps: seq<Packet>)
    requires b.Ok()
  {
    GapsWithin(None, TrackRun(Config(x => x, b), FRESH, ps).1, 1, b.MaxDelta())
  }

  /** One forward jump past the maximum comes out as exactly the fallback gap. */
  lemma JumpComesOutAsFallback(b: TimeBase, far: int)
    requires b.Ok() && far > b.MaxDelta()
    ensures var qs := TrackRun(Config(x => x, b), FRESH, [Packet(0, 0, 0), Packet(0, far, far)]).1;
            qs[1].dts - qs[0].dts == b.Fallback()
  {
    var c := Config(x => x, b);
    var ps := [Packet(0, 0, 0), Packet(0, far, far)];
    assert ps[1..] == [Packet(0, far, far)] && ps[1..][1..] == [];
    var (t1, q0) := Process(c, FRESH, ps[0]);
    assert t1 == Track(Some(0), Some(0), 0) && q0.dts == 0;
    var (t2, q1) := Process(c, t1, ps[1]);
    assert q1.dts == b.Fallback();
    assert TrackRun(c, t1, ps[1..]).1 == [q1];
  }

  /** The replacement gap must be at least one tick: written DTS rises on all inputs if and only if
      the file's time base is that fine. */
  lemma StrictExactly(b: TimeBase)
    requires b.Ok()
    ensures (forall ps: seq<Packet> :: RisesOn(b, ps)) <==> 33 * b.den >= 1000 * b.num
  {
    TruncBounds(33 * b.den, 1000 * b.num);
    if b.Fallback() >= 1 {
      forall ps: seq<Packet>
        ensures RisesOn(b, ps)
      {
        WrittenStream(Config(x => x, b), FRESH, ps);
      }
    } else {
      var far := b.MaxDelta() + 1;
      JumpComesOutAsFallback(b, far);
      assert !RisesOn(b, [Packet(0, 0, 0), Packet(0, far, far)]);
    }
  }
}
