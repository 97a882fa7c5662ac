/** The transmuxer's clock: one anchor for both streams, and per packet PTS, DTS and, for video,
    the PCR base. */
module StreamClock {
  import opened Options
  import Bump

  /** One second at 90 kHz. */
  const BUFFER: int := 90000

  datatype Clock = Clock(anchor: Option<int>, lastVideoDTS: int, lastAudioDTS: int, lastPCR: int)

  const INITIAL: Clock := Clock(None, 0, 0, 0)

  datatype Stamps = Stamps(pts: int, dts: int)

  function Lowered(anchor: Option<int>, dts: int): int {
    if anchor.None? || dts < anchor.value then dts else anchor.value
  }

  /** Emitted stamps from the elapsed DTS: a zero input DTS means the DTS was missing. */
  function Emit(elapsedDTS: int, elapsedPTS: int, pts: int, dts: int): Stamps {
    var d := elapsedDTS + BUFFER;
    var p := elapsedPTS + BUFFER;
    var d' := if dts == 0 && pts != 0 then p else d;
    Stamps(if p < d' then d' else p, d')
  }

  function Video(c: Clock, pts: int, dts: int): (Clock, Stamps, int) {
    var anchor := Lowered(c.anchor, dts);
    var elapsed := Bump.Step(Some(c.lastVideoDTS), dts - anchor);
    var pcr := Bump.Step(Some(c.lastPCR), elapsed);
    (Clock(Some(anchor), elapsed, c.lastAudioDTS, pcr), Emit(elapsed, pts - anchor, pts, dts), pcr)
  }

  function Audio(c: Clock, pts: int, dts: int): (Clock, Stamps) {
    var anchor := Lowered(c.anchor, dts);
    var elapsed := Bump.Step(Some(c.lastAudioDTS), dts - anchor);
    (Clock(Some(anchor), c.lastVideoDTS, elapsed, c.lastPCR), Emit(elapsed, pts - anchor, pts, dts))
  }

  class StreamClock {
    var isAnchored: bool
    var anchorBase: int
    var lastVideoDTS: int
    var lastAudioDTS: int
    var lastPCR: int
    const bufferTicks: int

    constructor ()
      ensures bufferTicks == BUFFER && View() == INITIAL
    {
      bufferTicks := 90000;
      isAnchored, anchorBase := false, 0;
      lastVideoDTS, lastAudioDTS, lastPCR := 0, 0, 0;
    }

    function View(): Clock
      reads this
    {
      Clock(if isAnchored then Some(anchorBase) else None, lastVideoDTS, lastAudioDTS, lastPCR)
    }

    method NormalizeVideo(pts: int, dts: int) returns (normPTS: int, normDTS: int, pcrBase: int)
      requires bufferTicks == BUFFER
      modifies this
      ensures (View(), Stamps(normPTS, normDTS), pcrBase) == Video(old(View()), pts, dts)
    {
      if !isAnchored {
        anchorBase := dts;
        isAnchored := true;
      } else if dts < anchorBase {
        anchorBase := dts;
      }
      var elapsedTicks := dts - anchorBase;
      var elapsedPTS := pts - anchorBase;
      if elapsedTicks <= lastVideoDTS {
        elapsedTicks := lastVideoDTS + 1;
      }
      lastVideoDTS := elapsedTicks;
      pcrBase := elapsedTicks;
      if pcrBase <= lastPCR {
        pcrBase := lastPCR + 1;
      }
      lastPCR := pcrBase;
      normDTS := elapsedTicks + bufferTicks;
      normPTS := elapsedPTS + bufferTicks;
      if dts == 0 && pts != 0 {
        normDTS := normPTS;
      }
      if normPTS < normDTS {
        normPTS := normDTS;
      }
    }

    method NormalizeAudio(pts: int, dts: int) returns (normPTS: int, normDTS: int)
      requires bufferTicks == BUFFER
      modifies this
      ensures (View(), Stamps(normPTS, normDTS)) == Audio(old(View()), pts, dts)
    {
      if !isAnchored {
        anchorBase := dts;
        isAnchored := true;
      } else if dts < anchorBase {
        anchorBase := dts;
      }
      var elapsedTicks := dts - anchorBase;
      var elapsedPTS := pts - anchorBase;
      if elapsedTicks <= lastAudioDTS {
        elapsedTicks := lastAudioDTS + 1;
      }
      lastAudioDTS := elapsedTicks;
      normDTS := elapsedTicks + bufferTicks;
      normPTS := elapsedPTS + bufferTicks;
      if dts == 0 && pts != 0 {
        normDTS := normPTS;
      }
      if normPTS < normDTS {
        normPTS := normDTS;
      }
    }
  }

  // ------------------------------------------------------------------ mixed runs

  datatype Packet = Packet(isVideo: bool, pts: int, dts: int)

  /** What a packet comes out as; pcr is only there for video. */
  datatype Output = Output(stamps: Stamps, pcr: Option<int>)

  function Next(c: Clock, p: Packet): (Clock, Output) {
    if p.isVideo then
      var (c1, s, pcr) := Video(c, p.pts, p.dts);
      (c1, Output(s, Some(pcr)))
    else
      var (c1, s) := Audio(c, p.pts, p.dts);
      (c1, Output(s, None))
  }

  function Run(c: Clock, ps: seq<Packet>): (res: (Clock, seq<Output>))
    ensures |res.1| == |ps|
    decreases |ps|
  {
    if ps == [] then (c, [])
    else
      var (c1, o) := Next(c, ps[0]);
      var (c2, os) := Run(c1, ps[1..]);
      (c2, [o] + os)
  }

  /** The smallest DTS so far, both streams together. */
  function MinDts(m: Option<int>, ps: seq<Packet>): Option<int>
    decreases |ps|
  {
    if ps == [] then m else MinDts(Some(Lowered(m, ps[0].dts)), ps[1..])
  }

  /** The DTS of one stream's packets, each measured from the anchor in force when it arrives. */
  function Elapsed(m: Option<int>, video: bool, ps: seq<Packet>): seq<int>
    decreases |ps|
  {
    if ps == [] then []
    else
      var m1 := Lowered(m, ps[0].dts);
      if ps[0].isVideo == video then [ps[0].dts - m1] + Elapsed(Some(m1), video, ps[1..])
      else Elapsed(Some(m1), video, ps[1..])
  }

  function Pcrs(os: seq<Output>): seq<int> {
    if os == [] then []
    else if os[0].pcr.Some? then [os[0].pcr.value] + Pcrs(os[1..])
    else Pcrs(os[1..])
  }

  /** PTS never precedes DTS, on either stream, whatever the input. */
  lemma PtsNotBeforeDts(c: Clock, p: Packet)
    ensures var s := Next(c, p).1.stamps; s.pts >= s.dts
  {
  }

  /** Along every mixed run: the anchor is the smallest DTS seen, the PCR equals the video tracker,
      and the PCR values are the bump rule on the elapsed video DTS alone, so audio only reaches
      them through the anchor. On either stream PTS never precedes DTS. */
  lemma {:induction false} ClockRun(c: Clock, ps: seq<Packet>)
    requires c.lastPCR == c.lastVideoDTS
    ensures var (c', os) := Run(c, ps);
            && c'.anchor == MinDts(c.anchor, ps)
            && c'.lastPCR == c'.lastVideoDTS
            && Pcrs(os) == Bump.Run(Some(c.lastPCR), Elapsed(c.anchor, true, ps))
            && forall i :: 0 <= i < |os| ==> os[i].stamps.dts <= os[i].stamps.pts
    decreases |ps|
  {
    if ps != [] {
      var (c1, o) := Next(c, ps[0]);
      PtsNotBeforeDts(c, ps[0]);
      ClockRun(c1, ps[1..]);
      var os := Run(c, ps).1;
      assert os[1..] == Run(c1, ps[1..]).1 && os[0] == o;
      if ps[0].isVideo {
        assert Elapsed(c.anchor, true, ps)[1..] == Elapsed(c1.anchor, true, ps[1..]);
      }
    }
  }

  /** MinDts is the minimum: below every DTS, and one of them. */
  lemma {:induction false} MinDtsIsMinimum(m: Option<int>, ps: seq<Packet>)
    ensures ps != [] || m.Some? ==> MinDts(m, ps).Some?
    ensures m.Some? ==> MinDts(m, ps).value <= m.value
    ensures forall i :: 0 <= i < |ps| ==> MinDts(m, ps).value <= ps[i].dts
    ensures ps != [] ==>
              (m.Some? && MinDts(m, ps) == m)
              || exists i :: 0 <= i < |ps| && MinDts(m, ps) == Some(ps[i].dts)
    decreases |ps|
  {
    if ps != [] {
      var m1 := Some(Lowered(m, ps[0].dts));
      MinDtsIsMinimum(m1, ps[1..]);
      forall i | 0 <= i < |ps|
        ensures MinDts(m, ps).value <= ps[i].dts
      {
        if i > 0 {
          assert ps[i] == ps[1..][i - 1];
        }
      }
      if MinDts(m, ps) == m1 {
        assert m1 == m || m1 == Some(ps[0].dts);
      } else {
        var i :| 0 <= i < |ps[1..]| && MinDts(m1, ps[1..]) == Some(ps[1..][i].dts);
        assert ps[i + 1] == ps[1..][i];
      }
    }
  }

  /** From a new clock: the anchor is the minimum DTS; the PCR starts above zero, rises with every
      video packet, never lags the elapsed time, and is the least sequence that does. */
  lemma PcrRises(ps: seq<Packet>, zs: seq<int>)
    ensures var (c, os) := Run(INITIAL, ps);
            var (ins, pcrs) := (Elapsed(None, true, ps), Pcrs(os));
            && c.anchor == MinDts(None, ps) && c.lastPCR == c.lastVideoDTS
            && Bump.Rising(Some(0), pcrs) && Bump.Above(ins, pcrs)
            && (Bump.Rising(Some(0), zs) && Bump.Above(ins, zs) ==> Bump.Above(pcrs, zs))
  {
    ClockRun(INITIAL, ps);
    Bump.RunRises(Some(0), Elapsed(None, true, ps));
    if Bump.Rising(Some(0), zs) && Bump.Above(Elapsed(None, true, ps), zs) {
      Bump.RunIsLeast(Some(0), Elapsed(None, true, ps), zs);
    }
  }

  /** The emitted video DTS is the PCR plus one second exactly when the DTS was not replaced by the
      PTS, or the PTS happens to give the same. */
  lemma DtsFollowsPcr(c: Clock, pts: int, dts: int)
    requires c.lastPCR == c.lastVideoDTS
    ensures var (c', s, pcr) := Video(c, pts, dts);
            s.dts == pcr + BUFFER <==> dts != 0 || pts == 0 || pts - c'.anchor.value == pcr
  {
  }

  /** The PCR a packet carries, with its DTS nonzero, is always exactly one second before its DTS,
      which therefore rises as the PCR does. */
  lemma {:induction false} DtsRisesWithPcr(c: Clock, ps: seq<Packet>)
    requires c.lastPCR == c.lastVideoDTS
    requires forall i :: 0 <= i < |ps| ==> ps[i].dts != 0
    ensures forall i :: 0 <= i < |ps| && ps[i].isVideo ==>
              Run(c, ps).1[i].pcr.Some?
              && Run(c, ps).1[i].stamps.dts == Run(c, ps).1[i].pcr.value + BUFFER
              && Run(c, ps).1[i].stamps.pts >= Run(c, ps).1[i].stamps.dts
    decreases |ps|
  {
    if ps != [] {
      var c1 := Next(c, ps[0]).0;
      DtsRisesWithPcr(c1, ps[1..]);
      var os := Run(c, ps).1;
      assert os[1..] == Run(c1, ps[1..]).1;
      forall i | 0 <= i < |ps| && ps[i].isVideo
        ensures os[i].pcr.Some? && os[i].stamps.dts == os[i].pcr.value + BUFFER
        ensures os[i].stamps.pts >= os[i].stamps.dts
      {
        if i > 0 {
          assert os[i] == os[1..][i - 1] && ps[i] == ps[1..][i - 1];
        }
      }
    }
  }

  /** What every packet of a mixed run comes out as, from the smallest DTS so far: its PTS is its own
      elapsed PTS plus one second, raised to the emitted DTS where it falls short; a missing DTS is
      replaced by that PTS; otherwise the video DTS is the PCR plus one second. */
  lemma {:induction false} StampsRun(c: Clock, ps: seq<Packet>, i: nat)
    requires i < |ps| && c.lastPCR == c.lastVideoDTS
    ensures MinDts(c.anchor, ps[..i + 1]).Some?
    ensures var (o, p) := (Run(c, ps).1[i], ps[i]);
            var elapsed := p.pts - MinDts(c.anchor, ps[..i + 1]).value;
            && o.stamps.pts == (if elapsed + 90000 < o.stamps.dts then o.stamps.dts else elapsed + 90000)
            && (p.isVideo <==> o.pcr.Some?)
            && (p.dts == 0 && p.pts != 0 ==> o.stamps.dts == elapsed + 90000)
            && (p.isVideo && (p.dts != 0 || p.pts == 0) ==> o.stamps.dts == o.pcr.value + 90000)
    decreases |ps|
  {
    var c1 := Next(c, ps[0]).0;
    assert ps[..i + 1][1..] == ps[1..][..i];
    if i == 0 {
      assert ps[..1][1..] == [];
    } else {
      StampsRun(c1, ps[1..], i - 1);
      assert Run(c, ps).1[i] == Run(c1, ps[1..]).1[i - 1];
    }
  }

  /** Hence a packet whose DTS the tracker did not move keeps its distance between PTS and DTS. */
  lemma CompositionKept(c: Clock, ps: seq<Packet>, i: nat)
    requires i < |ps| && c.lastPCR == c.lastVideoDTS
    requires ps[i].dts <= ps[i].pts && MinDts(c.anchor, ps[..i + 1]).Some?
    requires Run(c, ps).1[i].stamps.dts
             == ps[i].dts - MinDts(c.anchor, ps[..i + 1]).value + BUFFER
    ensures var s := Run(c, ps).1[i].stamps; s.pts - s.dts == ps[i].pts - ps[i].dts
  {
    StampsRun(c, ps, i);
  }

  /** The audio packets' emitted DTS, one second taken off. */
  function AudioDts(os: seq<Output>): seq<int> {
    if os == [] then []
    else if os[0].pcr.None? then [os[0].stamps.dts - BUFFER] + AudioDts(os[1..])
    else AudioDts(os[1..])
  }

  /** Along every mixed run of nonzero DTS the emitted audio DTS is one second after the bump rule on
      the elapsed audio DTS alone, so video only reaches it through the anchor. */
  lemma {:induction false} AudioRun(c: Clock, ps: seq<Packet>)
    requires forall i :: 0 <= i < |ps| ==> ps[i].dts != 0
    ensures AudioDts(Run(c, ps).1) == Bump.Run(Some(c.lastAudioDTS), Elapsed(c.anchor, false, ps))
    decreases |ps|
  {
    if ps != [] {
      var (c1, o) := Next(c, ps[0]);
      AudioRun(c1, ps[1..]);
      var os := Run(c, ps).1;
      assert os[1..] == Run(c1, ps[1..]).1 && os[0] == o;
      if !ps[0].isVideo {
        assert Elapsed(c.anchor, false, ps)[1..] == Elapsed(c1.anchor, false, ps[1..]);
      }
    }
  }

  /** From a new clock: the emitted audio DTS rises with every audio packet, never lags the elapsed
      time, and is the least sequence that does. */
  lemma AudioRises(ps: seq<Packet>, zs: seq<int>)
    requires forall i :: 0 <= i < |ps| ==> ps[i].dts != 0
    ensures var (ins, ys) := (Elapsed(None, false, ps), AudioDts(Run(INITIAL, ps).1));
            && Bump.Rising(Some(0), ys) && Bump.Above(ins, ys)
            && (Bump.Rising(Some(0), zs) && Bump.Above(ins, zs) ==> Bump.Above(ys, zs))
  {
    var ins := Elapsed(None, false, ps);
    AudioRun(INITIAL, ps);
    Bump.RunRises(Some(0), ins);
    if Bump.Rising(Some(0), zs) && Bump.Above(ins, zs) {
      Bump.RunIsLeast(Some(0), ins, zs);
    }
  }
}
