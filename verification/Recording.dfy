/** The disk writer's loop: one queue of packets becomes a series of segment files. */
module Recording {
  import opened Options

  /** A packet of size zero is the flush request. */
  datatype Packet = Packet(stream: int, isKey: bool, size: nat, body: int)

  /** What the world answers while one packet is handled: the steady clock in nanoseconds, the path
      and wall-clock start a new file would get, whether it opens, and the running file's length. */
  datatype World = World(now: int, path: string, startMs: int, opens: bool, durationMs: int)

  /** One minute. */
  const ROTATE_NS: int := 60_000_000_000

  /** What happens, in order. */
  datatype Event =
    | Flushed
    | Started(path: string, startMs: int, ok: bool, first: Packet, now: int)
    | Handed(packet: Packet, recording: bool)
    | Done(path: string, startMs: int, endMs: int)

  /** The recorder's file. */
  datatype File = File(isRecording: bool, path: string, startMs: int)

  datatype State = State(isFirst: bool, lastSwitch: int, file: File)

  function Initial(now: int): State {
    State(true, now, File(false, "", 0))
  }

  function Finalize(f: File, durationMs: int): (File, seq<Event>) {
    if !f.isRecording then (f, [])
    else
      (f.(isRecording := false, path := ""),
       if f.path == "" then [] else [Done(f.path, f.startMs, f.startMs + durationMs)])
  }

  predicate VideoKey(video: Option<int>, p: Packet) {
    video == Some(p.stream) && p.isKey
  }

  function Handle(s: State, p: Packet, w: World, video: Option<int>): (State, seq<Event>) {
    if p.size == 0 then
      var (f, es) := Finalize(s.file, w.durationMs);
      (State(true, s.lastSwitch, f), es + [Flushed])
    else if s.isFirst || (w.now - s.lastSwitch >= ROTATE_NS && VideoKey(video, p)) then
      (State(false, w.now, File(w.opens, w.path, w.startMs)),
       Finalize(s.file, w.durationMs).1
       + [Started(w.path, w.startMs, w.opens, p, w.now), Handed(p, w.opens)])
    else (s, [Handed(p, s.file.isRecording)])
  }

  /** The loop up to the shutdown signal, from the i-th packet on. */
  function Loop(s: State, queue: seq<Packet>, world: nat -> World, i: nat, video: Option<int>)
      : seq<Event>
    requires i <= |queue|
    decreases |queue| - i
  {
    if i == |queue| then Finalize(s.file, world(i).durationMs).1
    else
      var (s1, es) := Handle(s, queue[i], world(i), video);
      es + Loop(s1, queue, world, i + 1, video)
  }

  class RecorderWorker {
    var isRecording: bool
    var currentFilePath: string
    var currentStartTimeMs: int
    var log: seq<Event>

    constructor ()
      ensures FileView() == File(false, "", 0) && log == []
    {
      isRecording, currentFilePath, currentStartTimeMs, log := false, "", 0, [];
    }

    function FileView(): File
      reads this
    {
      File(isRecording, currentFilePath, currentStartTimeMs)
    }

    method FinalizeCurrentSegment(durationMs: int)
      modifies this
      ensures FileView() == Finalize(old(FileView()), durationMs).0
      ensures log == old(log) + Finalize(old(FileView()), durationMs).1
    {
      if !isRecording {
        assert log + [] == log;
        return;
      }
      var endTimeMs := currentStartTimeMs + durationMs;
      isRecording := false;
      if currentFilePath != "" {
        log := log + [Done(currentFilePath, currentStartTimeMs, endTimeMs)];
      } else {
        assert log + [] == log;
      }
      currentFilePath := "";
    }

    /** The loop body for one packet; the loop's two locals go in and out. */
    method HandlePacket(isFirst: bool, lastSwitch: int, packet: Packet, w: World, video: Option<int>)
        returns (isFirstSegment: bool, lastSwitchTime: int)
      modifies this
      ensures State(isFirstSegment, lastSwitchTime, FileView())
              == Handle(State(isFirst, lastSwitch, old(FileView())), packet, w, video).0
      ensures log == old(log) + Handle(State(isFirst, lastSwitch, old(FileView())), packet, w, video).1
    {
      isFirstSegment, lastSwitchTime := isFirst, lastSwitch;
      if packet.size == 0 {
        FinalizeCurrentSegment(w.durationMs);
        isFirstSegment := true;
        log := log + [Flushed];
        return;
      }
      var timeToRotate := w.now - lastSwitchTime >= ROTATE_NS;
      var isVideoKeyframe := video == Some(packet.stream) && packet.isKey;
      if isFirstSegment || (timeToRotate && isVideoKeyframe) {
        FinalizeCurrentSegment(w.durationMs);
        currentFilePath := w.path;
        currentStartTimeMs := w.startMs;
        isRecording := w.opens;
        log := log + [Started(w.path, w.startMs, w.opens, packet, w.now)];
        lastSwitchTime := w.now;
        isFirstSegment := false;
      }
      log := log + [Handed(packet, isRecording)];
    }

    /** Runs until the queue delivers the shutdown signal behind its packets. */
    method WriterWorker(queue: seq<Packet>, world: nat -> World, startNow: int, video: Option<int>)
      requires FileView() == File(false, "", 0) && log == []
      modifies this
      ensures log == Loop(Initial(startNow), queue, world, 0, video)
      ensures !isRecording
    {
      var lastSwitchTime := startNow;
      var isFirstSegment := true;
      var i: nat := 0;
      while i < |queue|
        invariant 0 <= i <= |queue|
        invariant Loop(Initial(startNow), queue, world, 0, video)
               == log + Loop(State(isFirstSegment, lastSwitchTime, FileView()), queue, world, i, video)
      {
        ghost var s := State(isFirstSegment, lastSwitchTime, FileView());
        ghost var before := log;
        isFirstSegment, lastSwitchTime :=
          HandlePacket(isFirstSegment, lastSwitchTime, queue[i], world(i), video);
        LoopStep(before, s, queue, world, i, video);
        i := i + 1;
      }
      FinalizeCurrentSegment(world(i).durationMs);
    }
  }

  lemma LoopStep(
      before: seq<Event>, s: State, queue: seq<Packet>, world: nat -> World, i: nat, video: Option<int>)
    requires i < |queue|
    ensures var (s1, es) := Handle(s, queue[i], world(i), video);
            before + Loop(s, queue, world, i, video)
            == (before + es) + Loop(s1, queue, world, i + 1, video)
  {
  }

  // ------------------------------------------------------------------ what the log looks like

  /** The packets handed to the recorder. */
  function HandedOver(log: seq<Event>): seq<Packet> {
    if log == [] then []
    else if log[0].Handed? then [log[0].packet] + HandedOver(log[1..])
    else HandedOver(log[1..])
  }

  /** The data packets of the queue. */
  function DataFrom(queue: seq<Packet>, i: nat): seq<Packet>
    requires i <= |queue|
    decreases |queue| - i
  {
    if i == |queue| then []
    else if queue[i].size == 0 then DataFrom(queue, i + 1)
    else [queue[i]] + DataFrom(queue, i + 1)
  }

  lemma {:induction false} HandedOverConcat(a: seq<Event>, b: seq<Event>)
    ensures HandedOver(a + b) == HandedOver(a) + HandedOver(b)
  {
    if a == [] {
      assert a + b == b;
    } else {
      HandedOverConcat(a[1..], b);
      assert (a + b)[1..] == a[1..] + b;
    }
  }

  lemma HandleHands(s: State, p: Packet, w: World, video: Option<int>)
    ensures HandedOver(Handle(s, p, w, video).1) == if p.size == 0 then [] else [p]
  {
    var fin := Finalize(s.file, w.durationMs).1;
    assert HandedOver(fin) == [];
    HandedOverConcat(fin, [Flushed]);
    var start := [Started(w.path, w.startMs, w.opens, p, w.now), Handed(p, w.opens)];
    HandedOverConcat(fin, start);
    assert start[1..] == [Handed(p, w.opens)] && start[1..][1..] == [];
    assert HandedOver(start[1..]) == [p];
    assert [Handed(p, s.file.isRecording)][1..] == [];
  }

  /** Over any queue and any readings, every data packet is handed to the recorder, once, in order. */
  lemma {:induction false} EveryPacketHandedOnce(
      s: State, queue: seq<Packet>, world: nat -> World, i: nat, video: Option<int>)
    requires i <= |queue|
    ensures HandedOver(Loop(s, queue, world, i, video)) == DataFrom(queue, i)
    decreases |queue| - i
  {
    hide Handle;
    if i < |queue| {
      var (s1, es) := Handle(s, queue[i], world(i), video);
      HandleHands(s, queue[i], world(i), video);
      HandedOverConcat(es, Loop(s1, queue, world, i + 1, video));
      EveryPacketHandedOnce(s1, queue, world, i + 1, video);
    }
  }

  /** What an observer of the log must have in mind: whether a segment was started since the start
      or the last flush and when, which file is open, and which packet must come next. */
  datatype Watch = Watch(lastSwitch: Option<int>, open: Option<(string, int)>, due: Option<Packet>)

  /** The log's law, event by event; None means it is broken.
      - A started segment leaves no earlier file open; unless it is the first since the start or a
        flush, it begins with a video keyframe one full minute or more after the previous switch.
      - Its first packet is handed over at once.
      - A packet goes to a file exactly when one is open.
      - segment_done reports the open file and closes it, so it comes once per opened file. */
  function Observe(k: Watch, e: Event, video: Option<int>): Option<Watch> {
    match e
    case Flushed =>
      if k.due.None? && k.open.None? then Some(k.(lastSwitch := None)) else None
    case Started(path, startMs, ok, first, now) =>
      if k.due.None? && k.open.None?
         && (k.lastSwitch.Some? ==> VideoKey(video, first) && now - k.lastSwitch.value >= ROTATE_NS)
      then Some(Watch(Some(now), if ok then Some((path, startMs)) else None, Some(first)))
      else None
    case Handed(p, recording) =>
      if (k.due.Some? ==> k.due == Some(p)) && recording == k.open.Some? && k.lastSwitch.Some?
      then Some(k.(due := None)) else None
    case Done(path, startMs, _) =>
      if k.due.None? && k.open == Some((path, startMs)) then Some(k.(open := None)) else None
  }

  function ObserveAll(k: Watch, log: seq<Event>, video: Option<int>): Option<Watch>
    decreases |log|
  {
    if log == [] then Some(k)
    else
      match Observe(k, log[0], video)
      case None => None
      case Some(k1) => ObserveAll(k1, log[1..], video)
  }

  lemma {:induction false} ObserveConcat(k: Watch, a: seq<Event>, b: seq<Event>, video: Option<int>)
    requires ObserveAll(k, a, video).Some?
    ensures ObserveAll(k, a + b, video) == ObserveAll(ObserveAll(k, a, video).value, b, video)
    decreases |a|
  {
    if a == [] {
      assert a + b == b;
    } else {
      ObserveConcat(Observe(k, a[0], video).value, a[1..], b, video);
      assert (a + b)[1..] == a[1..] + b;
    }
  }

  /** The observer's state that goes with a worker state between two packets. */
  function WatchOf(s: State): Watch {
    Watch(if s.isFirst then None else Some(s.lastSwitch),
          if s.file.isRecording then Some((s.file.path, s.file.startMs)) else None, None)
  }

  predicate NamedWhileRecording(s: State) {
    s.file.isRecording ==> s.file.path != ""
  }

  lemma FinalizeObserved(s: State, durationMs: int, video: Option<int>)
    requires NamedWhileRecording(s)
    ensures ObserveAll(WatchOf(s), Finalize(s.file, durationMs).1, video)
            == Some(WatchOf(s).(open := None))
  {
    var es := Finalize(s.file, durationMs).1;
    if es != [] {
      assert es[1..] == [];
    }
  }

  lemma HandleObserved(s: State, p: Packet, w: World, video: Option<int>)
    requires NamedWhileRecording(s) && w.path != "" && (s.file.isRecording ==> !s.isFirst)
    ensures var (s1, es) := Handle(s, p, w, video);
            && ObserveAll(WatchOf(s), es, video) == Some(WatchOf(s1))
            && NamedWhileRecording(s1) && (s1.file.isRecording ==> !s1.isFirst)
  {
    var fin := Finalize(s.file, w.durationMs).1;
    var k := WatchOf(s).(open := None);
    FinalizeObserved(s, w.durationMs, video);
    if p.size == 0 {
      ObserveConcat(WatchOf(s), fin, [Flushed], video);
      assert [Flushed][1..] == [];
    } else if s.isFirst || (w.now - s.lastSwitch >= ROTATE_NS && VideoKey(video, p)) {
      var start := [Started(w.path, w.startMs, w.opens, p, w.now), Handed(p, w.opens)];
      ObserveConcat(WatchOf(s), fin, start, video);
      var k1 := Observe(k, start[0], video);
      assert start[1..] == [Handed(p, w.opens)] && start[1..][1..] == [];
      assert ObserveAll(k1.value, start[1..], video) == Observe(k1.value, start[1], video);
    } else {
      assert [Handed(p, s.file.isRecording)][1..] == [];
    }
  }

  lemma {:induction false} LoopObserved(
      s: State, queue: seq<Packet>, world: nat -> World, i: nat, video: Option<int>)
    requires i <= |queue| && NamedWhileRecording(s) && (s.file.isRecording ==> !s.isFirst)
    requires forall j: nat :: world(j).path != ""
    ensures var k := ObserveAll(WatchOf(s), Loop(s, queue, world, i, video), video);
            k.Some? && k.value.open.None? && k.value.due.None?
    decreases |queue| - i
  {
    if i == |queue| {
      FinalizeObserved(s, world(i).durationMs, video);
    } else {
      var (s1, es) := Handle(s, queue[i], world(i), video);
      HandleObserved(s, queue[i], world(i), video);
      ObserveConcat(WatchOf(s), es, Loop(s1, queue, world, i + 1, video), video);
      LoopObserved(s1, queue, world, i + 1, video);
    }
  }

  /** The files that opened, and the files reported done, in order. */
  function Opened(log: seq<Event>): seq<(string, int)> {
    if log == [] then []
    else if log[0].Started? && log[0].ok then [(log[0].path, log[0].startMs)] + Opened(log[1..])
    else Opened(log[1..])
  }

  function Reported(log: seq<Event>): seq<(string, int)> {
    if log == [] then []
    else if log[0].Done? then [(log[0].path, log[0].startMs)] + Reported(log[1..])
    else Reported(log[1..])
  }

  function Pending(k: Watch): seq<(string, int)> {
    if k.open.Some? then [k.open.value] else []
  }

  /** A lawful log reports each opened file exactly once, in order, except for one still open. */
  lemma {:induction false} LawfulReports(k: Watch, log: seq<Event>, video: Option<int>)
    requires ObserveAll(k, log, video).Some?
    ensures Pending(k) + Opened(log) == Reported(log) + Pending(ObserveAll(k, log, video).value)
    decreases |log|
  {
    if log != [] {
      var k1 := Observe(k, log[0], video).value;
      LawfulReports(k1, log[1..], video);
      var files, reported := Opened(log[1..]), Reported(log[1..]);
      match log[0]
      case Started(path, startMs, ok, _, _) =>
        assert Pending(k) + Opened(log) == Pending(k1) + files;
      case Done(path, startMs, _) =>
        assert Pending(k1) + files == files;
        assert Pending(k) + Opened(log) == [(path, startMs)] + files;
        assert Reported(log) == [(path, startMs)] + reported;
        var last := Pending(ObserveAll(k, log, video).value);
        assert [(path, startMs)] + (reported + last) == [(path, startMs)] + reported + last;
      case Handed(_, _) =>
      case Flushed =>
    }
  }

  /** Rotation, on any queue and any readings of the clocks: packets handed over once and in order,
      segments cut at video keyframes a full minute apart, one report per opened file and none
      pending at exit. */
  lemma RotationPartitions(
      queue: seq<Packet>, world: nat -> World, startNow: int, video: Option<int>)
    requires forall j: nat :: world(j).path != ""
    ensures var log := Loop(Initial(startNow), queue, world, 0, video);
            && HandedOver(log) == DataFrom(queue, 0)
            && ObserveAll(Watch(None, None, None), log, video).Some?
            && Reported(log) == Opened(log)
  {
    var s := Initial(startNow);
    var log := Loop(s, queue, world, 0, video);
    EveryPacketHandedOnce(s, queue, world, 0, video);
    LoopObserved(s, queue, world, 0, video);
    LawfulReports(Watch(None, None, None), log, video);
    assert [] + Opened(log) == Opened(log) && Reported(log) + [] == Reported(log);
  }

  // ------------------------------------------------------------------ the log by position

  /** A segment starts at packet i: a data packet that is the first since the start or a flush, or a
      video keyframe one full minute or more after the last segment start. */
  predicate IsCut(queue: seq<Packet>, world: nat -> World, video: Option<int>, i: nat)
    requires i < |queue|
    decreases i, 1
  {
    && queue[i].size > 0
    && match LastStart(queue, world, video, i)
       case None => true
       case Some(t) =>
         video == Some(queue[i].stream) && queue[i].isKey && world(i).now - t >= 60 * 1_000_000_000
  }

  /** When the last segment before packet i started, if there is one since the start or a flush. */
  function LastStart(queue: seq<Packet>, world: nat -> World, video: Option<int>, i: nat): Option<int>
    requires i <= |queue|
    decreases i, 0
  {
    if i == 0 || queue[i - 1].size == 0 then None
    else if IsCut(queue, world, video, i - 1) then Some(world(i - 1).now)
    else LastStart(queue, world, video, i - 1)
  }

  /** The packet whose file is open before packet i. */
  function OpenAt(queue: seq<Packet>, world: nat -> World, video: Option<int>, i: nat): (c: Option<nat>)
    requires i <= |queue|
    decreases i
  {
    if i == 0 || queue[i - 1].size == 0 then None
    else if IsCut(queue, world, video, i - 1) then (if world(i - 1).opens then Some(i - 1) else None)
    else OpenAt(queue, world, video, i - 1)
  }

  /** The report of the file open before packet i, closed while packet i is handled. */
  function ReportAt(queue: seq<Packet>, world: nat -> World, video: Option<int>, i: nat): seq<Event>
    requires i <= |queue|
  {
    match OpenAt(queue, world, video, i)
    case None => []
    case Some(c) =>
      [Done(world(c).path, world(c).startMs, world(c).startMs + world(i).durationMs)]
  }

  function EntriesAt(queue: seq<Packet>, world: nat -> World, video: Option<int>, i: nat): seq<Event>
    requires i < |queue|
  {
    var p, w := queue[i], world(i);
    if p.size == 0 then ReportAt(queue, world, video, i) + [Flushed]
    else if IsCut(queue, world, video, i) then
      ReportAt(queue, world, video, i)
      + [Started(w.path, w.startMs, w.opens, p, w.now), Handed(p, w.opens)]
    else [Handed(p, OpenAt(queue, world, video, i).Some?)]
  }

  /** What the log must be from packet i on, told by the queue and the readings alone. */
  function History(queue: seq<Packet>, world: nat -> World, video: Option<int>, i: nat): seq<Event>
    requires i <= |queue|
    decreases |queue| - i
  {
    if i == |queue| then ReportAt(queue, world, video, i)
    else EntriesAt(queue, world, video, i) + History(queue, world, video, i + 1)
  }

  /** The worker's state before packet i is what the packets before it make it. */
  predicate InStep(s: State, queue: seq<Packet>, world: nat -> World, video: Option<int>, i: nat)
    requires i <= |queue|
  {
    && LastStart(queue, world, video, i) == (if s.isFirst then None else Some(s.lastSwitch))
    && match OpenAt(queue, world, video, i)
       case None => !s.file.isRecording
       case Some(c) => s.file == File(true, world(c).path, world(c).startMs)
  }

  lemma HandleInStep(s: State, queue: seq<Packet>, world: nat -> World, video: Option<int>, i: nat)
    requires i < |queue| && InStep(s, queue, world, video, i)
    requires forall j: nat :: world(j).path != ""
    ensures var (s1, es) := Handle(s, queue[i], world(i), video);
            es == EntriesAt(queue, world, video, i) && InStep(s1, queue, world, video, i + 1)
  {
  }

  lemma {:induction false} LoopIsHistory(
      s: State, queue: seq<Packet>, world: nat -> World, i: nat, video: Option<int>)
    requires i <= |queue| && InStep(s, queue, world, video, i)
    requires forall j: nat :: world(j).path != ""
    ensures Loop(s, queue, world, i, video) == History(queue, world, video, i)
    decreases |queue| - i
  {
    if i < |queue| {
      HandleInStep(s, queue, world, video, i);
      LoopIsHistory(Handle(s, queue[i], world(i), video).0, queue, world, i + 1, video);
    }
  }

  /** The whole log, over any queue and readings: a data packet starts a segment if and only if it is
      the first since the start or a flush, or a video keyframe a full minute or more after the last
      start; every other packet goes to the file then open; and each file is reported with the
      length it had when the next segment, a flush or the exit closed it. */
  lemma LogIsHistory(queue: seq<Packet>, world: nat -> World, startNow: int, video: Option<int>)
    requires forall j: nat :: world(j).path != ""
    ensures Loop(Initial(startNow), queue, world, 0, video) == History(queue, world, video, 0)
  {
    LoopIsHistory(Initial(startNow), queue, world, 0, video);
  }

  /** The first packets of the started segments and when they started. */
  function Starts(log: seq<Event>): seq<(Packet, int)> {
    if log == [] then []
    else if log[0].Started? then [(log[0].first, log[0].now)] + Starts(log[1..])
    else Starts(log[1..])
  }

  function CutsFrom(queue: seq<Packet>, world: nat -> World, video: Option<int>, i: nat)
      : seq<(Packet, int)>
    requires i <= |queue|
    decreases |queue| - i
  {
    if i == |queue| then []
    else if IsCut(queue, world, video, i) then
      [(queue[i], world(i).now)] + CutsFrom(queue, world, video, i + 1)
    else CutsFrom(queue, world, video, i + 1)
  }

  lemma {:induction false} StartsConcat(a: seq<Event>, b: seq<Event>)
    ensures Starts(a + b) == Starts(a) + Starts(b)
  {
    if a == [] {
      assert a + b == b;
    } else {
      StartsConcat(a[1..], b);
      assert (a + b)[1..] == a[1..] + b;
    }
  }

  lemma StartsAt(queue: seq<Packet>, world: nat -> World, video: Option<int>, i: nat)
    requires i < |queue|
    ensures Starts(EntriesAt(queue, world, video, i))
            == if IsCut(queue, world, video, i) then [(queue[i], world(i).now)] else []
  {
    assert IsCut(queue, world, video, i) ==> queue[i].size > 0;
    hide IsCut, OpenAt;
    var p, w := queue[i], world(i);
    var report := ReportAt(queue, world, video, i);
    assert Starts(report) == [];
    assert [Flushed][1..] == [] && [Handed(p, OpenAt(queue, world, video, i).Some?)][1..] == [];
    var start := [Started(w.path, w.startMs, w.opens, p, w.now), Handed(p, w.opens)];
    assert start[1..] == [Handed(p, w.opens)] && start[1..][1..] == [];
    assert Starts(start[1..]) == [];
    StartsConcat(report, [Flushed]);
    StartsConcat(report, start);
  }

  lemma {:induction false} HistoryStarts(
      queue: seq<Packet>, world: nat -> World, video: Option<int>, i: nat)
    requires i <= |queue|
    ensures Starts(History(queue, world, video, i)) == CutsFrom(queue, world, video, i)
    decreases |queue| - i
  {
    hide IsCut, OpenAt, EntriesAt;
    if i < |queue| {
      StartsAt(queue, world, video, i);
      StartsConcat(EntriesAt(queue, world, video, i), History(queue, world, video, i + 1));
      HistoryStarts(queue, world, video, i + 1);
    }
  }

  /** Every due rotation happens, and no other: the segments started are the cuts, in order. */
  lemma SegmentsAreCuts(queue: seq<Packet>, world: nat -> World, startNow: int, video: Option<int>)
    requires forall j: nat :: world(j).path != ""
    ensures Starts(Loop(Initial(startNow), queue, world, 0, video)) == CutsFrom(queue, world, video, 0)
  {
    LogIsHistory(queue, world, startNow, video);
    HistoryStarts(queue, world, video, 0);
  }
}
