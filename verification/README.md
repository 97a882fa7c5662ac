# A verified model of the video recorder's core protocols

The recorder is a C++ engine that pulls camera streams, writes them to disk and hands live frames to
a Go process, which fans them out, builds timelines and manages disk space. This project models the
parts that carry an algorithm or a protocol and proves what they promise.

- **Frame ring** (`RingSpec`, `RingFifo`, `RingExact`, `RingRuns`, `RingLaps`, `RingConcurrent`,
  `RingConcurrentLaps`, `SharedMemory`, `FrameMeta`, `Bytes`). The shared-memory ring is a byte array and two 32-bit indices. Frames vary in
  size, are never split, and a wrap leaves no marker, so the reader guesses from the magic number. The
  ring is proved to be a FIFO queue: per step with the exact acceptance condition, stated by what a
  reader then gets, over whole runs with refused writes in them, and with both processes
  interleaved byte by byte. A queue element is a frame image, that is a
  header with the magic number followed by as many bytes as it announces. The unconditional claim is
  false, and the project names the inputs: a wrap onto an old header, a frame larger than half the
  ring, a frame that ends exactly at the tail.
- **Timestamps** (`Bump`, `TsMuxer`, `SegmentRecorder`, `StreamClock`). Three repairs share one rule,
  "not after the last one: last plus one", whose output is the least strictly increasing sequence
  above the input. Each is proved to be that rule, the two with a forward-jump branch as long as it
  does not fire, with a condition on the input alone under which it does not.
- **Timeline** (`Timeline`). The merge computes the one canonical timeline of a set of recordings.
- **State machines** (`Hub`, `Recording`, `Worker`, `ChannelPool`, `Supervision`, `Assignments`,
  `Manager`, `Retention`): fan-out, segment rotation, delayed restarts, ring allocation, the two
  together across the command pipe and what the worker can see of it, camera placement, eviction.
  Exclusive rings are not unconditional either: a camera deleted and added again can share a ring
  with its old object; the project gives the run and the exact condition.
- **Command line** (`Command`): printing, framing, splitting and parsing between the processes.

Code that changes state is a class or a loop, proved against functions on values; the lemmas are about
those functions and their runs. Timestamps are unbounded integers and a missing timestamp is `None`;
ring indices are 32-bit, with every sum truncated as the source truncates it. Randomness, clocks, disk
readings and the order in which Go yields a map are parameters, so every result holds for all of them.

## Model

| member | source | states |
|---|---|---|
| FrameMeta.HeaderRoundTrip | nvr_core/shm/frame.meta.go:23-43 | decoding the 64-byte header undoes the writer's struct layout, for all field values, signed timestamps included, and any padding |
| FrameMeta.DecodeLosesNothing | cpp_engine/memory/SharedMemory.h:18-30 | conversely the decoded fields and the padding determine every byte of the header |
| FrameMeta.HeaderSlices | cpp_engine/memory/SharedMemory.h:18-30 | each field lies little-endian at the offset the struct comments give |
| FrameMeta.MagicOnTheWire | nvr_core/shm/shm.go:20-20 | the magic number is the bytes CC BB AA FF |
| FrameMeta.MetaRecord.LoadFrom | nvr_core/shm/frame.meta.go:23-43 | fails exactly below 64 bytes and then changes nothing; otherwise the record is the decoded header |
| RingSpec.WrittenFrameIsImage | cpp_engine/muxer/TSMuxer.cpp:237-248 | header and payload make a well-formed frame image exactly when the magic number is set and the announced size is the payload's, and the reader gets both back |
| RingSpec.PlanFits | cpp_engine/memory/SharedMemoryLinux.cpp:187-213 | an accepted write's range lies inside the buffer and ends at the new head; it starts at 0 only when the frame does not fit behind the head |
| RingFifo.WriteRefines | cpp_engine/memory/SharedMemoryLinux.cpp:176-226 | with room a write succeeds and the ring holds the old queue plus exactly this frame |
| RingFifo.WriteLeavesLive | cpp_engine/memory/SharedMemoryLinux.cpp:202-219 | with room a write changes no unread byte and not the header the reader probes at the skip point |
| RingFifo.ReadRefines | nvr_core/shm/shm.go:93-154 | a read of an empty queue changes nothing; any other read returns exactly the front frame and removes it, across the wrap too |
| RingFifo.ProbeFinds | nvr_core/shm/shm.go:101-129 | wherever the reader probes first, it settles on the front frame |
| RingExact.WriteExact | cpp_engine/memory/SharedMemoryLinux.cpp:194-213 | for every state and frame: after an accepted write, reads return the old queue, then the frame, then nothing, if and only if there was room; this settles every case the simplified collision check lets through, and exactly then the representation holds too |
| RingExact.AcceptedNeedsRoom | cpp_engine/memory/SharedMemoryLinux.cpp:206-213 | the hard half of that: after a write that makes a full ring look empty, wraps over an unread start, wraps a second time or wraps onto an old header, reads do not return the queue |
| RingExact.FirstLapDrains | nvr_core/shm/shm.go:93-154 | the frames on the first lap come out one by one, whatever lies behind them |
| RingExact.ReadLeavesRing | nvr_core/shm/shm.go:93-154 | on any bytes: a read writes nothing and leaves the head alone, finds nothing exactly when the indices are equal, and after the recovery branch the ring is an empty queue again |
| RingExact.DropsExactly | nvr_core/shm/shm.go:101-129 | on any bytes: it gives up on the magic number exactly when neither the probed place nor offset 0 has it |
| RingExact.OutcomeBySize | nvr_core/shm/shm.go:131-151 | once a magic number is found the announced size alone decides: past 32 bits a crash, past the buffer a drop, otherwise exactly those bytes |
| RingExact.FullRingLooksEmpty | cpp_engine/memory/SharedMemoryLinux.cpp:210-213 | a concrete run from zeroed memory: a frame that ends exactly at the tail is accepted, and the next read finds nothing with three frames unread |
| RingRuns.StepRefines | nvr_core/shm/shm.go:93-154 | one write or read answers as the queue answers and keeps the representation |
| RingRuns.RunIsFifo | cpp_engine/memory/SharedMemoryLinux.cpp:176-226 | on every run whose accepted writes find room, across any number of wraps, reads and accepted writes are answered as by a FIFO queue that never saw the refused ones, and the final contents are the queue's |
| RingRuns.RefusalsVanish | cpp_engine/memory/SharedMemoryLinux.cpp:210-213 | refused writes leave no trace in any run |
| RingRuns.RoomTakesAll | cpp_engine/memory/SharedMemoryLinux.cpp:210-213 | with room at every write none is refused |
| RingRuns.HeadroomGivesRoom | nvr_core/shm/shm.go:156-170 | buffered bytes plus twice the frame within the capacity, and no old header at the skip point, give room in every wrap case |
| RingRuns.HeadroomTight | nvr_core/shm/shm.go:163-169 | that bound is the weakest one on occupancy: all indices with the occupancy have room if and only if it holds |
| RingRuns.EmptyRingStuck | cpp_engine/memory/SharedMemoryLinux.cpp:210-213 | without it even an empty ring can refuse a frame for ever, however often both sides retry |
| RingLaps.HeadroomRunIsFifo | cpp_engine/memory/SharedMemoryLinux.cpp:176-226 | headroom and no old header at the skip point before each accepted write make the ring a queue on every run |
| RingLaps.EqualFramesFifo | cpp_engine/memory/SharedMemoryLinux.cpp:87-107 | from zeroed memory with accepted frames of one size, headroom alone does, lap after lap |
| RingLaps.FirstWrapFifo | nvr_core/shm/shm.go:101-129 | from zeroed memory with frames of any sizes, headroom alone does while at most one accepted write wraps |
| RingLaps.StaleHeaderBreaksFifo | nvr_core/shm/shm.go:112-129 | a concrete run from zeroed memory on which every write has headroom and is accepted, but the last read returns an old frame |
| RingConcurrent.InterleavedFifo | cpp_engine/memory/SharedMemoryLinux.cpp:183-223 | every interleaving of load, byte copy and commit of both sides in which accepted frames had room: nothing dropped, frames delivered are those published, in order, once, the writer never touches what the reader depends on, and no frame with room is refused |
| RingConcurrent.NonInterference | nvr_core/shm/shm.go:94-151 | in every reachable state the writer's target is disjoint from the unread frames, from the reader's copy in flight and from the header it probes, although the writer used an old tail |
| RingConcurrent.KeepStep | cpp_engine/memory/SharedMemoryLinux.cpp:183-223 | each single step of either side keeps the invariant behind both |
| RingConcurrent.MagicDecision | nvr_core/shm/shm.go:107-129 | with the four magic bytes copied while the writer runs, the reader moves to 0 only from the skip point and never reaches its recovery branch |
| RingConcurrentLaps.EqualFramesInterleaved | cpp_engine/memory/SharedMemoryLinux.cpp:87-107 | every interleaving from zeroed memory whose accepted frames have one size satisfies that hypothesis as soon as they have headroom, lap after lap |
| RingConcurrentLaps.FirstWrapInterleaved | nvr_core/shm/shm.go:101-129 | so does every interleaving from zeroed memory with frames of any sizes, while at most one accepted frame wraps |
| RingConcurrent.WriterAlone | cpp_engine/memory/SharedMemoryLinux.cpp:183-223 | from any state and any bytes, load, byte copies and commit with nothing in between are exactly the whole write, refusals included |
| RingConcurrent.ReaderAlone | nvr_core/shm/shm.go:93-154 | likewise the reader's split steps are exactly the whole read, with the same outcome, on any bytes |
| SharedMemory.Channel.WriteFrame | cpp_engine/memory/SharedMemoryLinux.cpp:181-226 | the method's new memory, new head and result are those of the write on values |
| SharedMemory.Channel.ReadFrame | nvr_core/shm/shm.go:93-154 | the method's new tail and result are those of the read on values, recovery and slice panic included |
| SharedMemory.Channel.GetMetrics | nvr_core/shm/shm.go:157-187 | reports the occupancy across the wrap, and a stall exactly above 95 per cent of the capacity |
| SharedMemory.Channel.CleanUp | cpp_engine/memory/SharedMemoryLinux.cpp:136-140 | both indices become zero and the bytes stay |
| SharedMemory.NotStalledHasHeadroom | nvr_core/shm/shm.go:171-175 | a channel that reports no stall has headroom for every frame up to a fortieth of its capacity |
| SharedMemory.FortiethIsExact | nvr_core/shm/shm.go:171-175 | a fortieth is exact |
| SharedMemory.DeployedNotStalledLossless | cpp_engine/main.cpp:60-64 | with 3145728 bytes and payloads up to 32768, a channel that is not stalled takes the next frame and keeps every unread byte, unless the wrap skips onto an old header |
| SharedMemory.DeployedRunIsFifo | nvr_core/shm/shm.go:171-175 | over whole runs in those sizes: when no accepted write comes during a reported stall and none skips onto an old header, the channel is a queue |
| SharedMemory.DeployedFromZeroFifo | cpp_engine/main.cpp:60-64 | from zeroed memory no stall is enough, while accepted frames have one size or at most one of them wraps |
| SharedMemory.LinuxSharedMemory.Create | cpp_engine/memory/SharedMemoryLinux.cpp:78-107 | separate zeroed channels with both indices zero, all on the free stack, the last on top |
| SharedMemory.LinuxSharedMemory.PopAvailableChannel | cpp_engine/memory/SharedMemoryLinux.cpp:143-150 | takes the top of the stack, or answers -1 when it is empty |
| SharedMemory.LinuxSharedMemory.ChannelForCamID | cpp_engine/memory/SharedMemoryLinux.cpp:152-173 | the pool and the answer are those of acquiring on values, and the partition is kept |
| SharedMemory.LinuxSharedMemory.ReleaseChannelForCamID | cpp_engine/memory/SharedMemoryLinux.cpp:116-134 | releases on values, resets the indices of that one ring and touches no other |
| SharedMemory.LinuxSharedMemory.WriteFrame | cpp_engine/memory/SharedMemoryLinux.cpp:176-226 | an index out of range is refused; otherwise exactly one ring changes, as the write on values |
| ChannelPool.AcquireKeeps | cpp_engine/memory/SharedMemoryLinux.cpp:143-173 | channels stay partitioned between stack and cameras; -1 exactly when the camera has none and all are taken; a camera keeps its channel |
| ChannelPool.ReleaseKeeps | cpp_engine/memory/SharedMemoryLinux.cpp:116-134 | channels stay partitioned, and only this camera loses its channel |
| ChannelPool.RingsStayExclusive | cpp_engine/vi/VideoIngestion.cpp:26-26 | over any run of starts and clean-ups in which no camera is started while an object for it is live, no two live objects share a ring |
| ChannelPool.StartExact | cpp_engine/main.cpp:99-103 | that discipline is exact: a successful start keeps the rings exclusive if and only if no object for the camera is live |
| Assignments.RestartsAreDisciplined | nvr_core/process/worker.go:438-471 | worker and engine together, over every interleaving of assignments, stops, notices, restarts, reports, starts and clean-ups: when the worker assigns a camera only with every START it printed for it answered by a notice or a refusal, every START, a restart's included, finds no live object of its camera, every restart that goes ahead finds nothing of it under way, and no two objects ever share a ring |
| Assignments.BooksTellSettled | nvr_core/process/worker.go:351-364 | after every such run the worker's own books, STARTs printed against notices handled and STARTs refused, say exactly which cameras have nothing under way: no START on its way, no object, no notice |
| Assignments.AssignExact | nvr_core/process/worker.go:334-349 | the check is exact: after every such run an assignment can never lead to two objects on one ring, without another assignment, if and only if the books for that camera are balanced |
| Assignments.EnoughRings | cpp_engine/memory/SharedMemoryLinux.cpp:143-173 | a worker that is only ever given as many camera numbers as it has rings has no START refused, so the notices alone answer |
| Assignments.NoticesSuffice | nvr_core/process/worker.go:334-349 | such a worker only needs to have handled as many notices for a camera as it printed STARTs: assigning under that check alone gives the whole protocol |
| Assignments.NoticesExact | nvr_core/process/worker.go:334-349 | and that check is exact |
| Assignments.AssignedOnceIsDisciplined | nvr_core/process/startup.go:24-30 | on a run on which no deleted camera is added again, so that each number is assigned once, every assignment is balanced and all of the above holds |
| Assignments.ReaddedCameraShares | nvr_core/db/repository/camera.go:155-165 | a deleted camera that is added again gets its old number back and is assigned without any check: a concrete run, assigned, started, deleted, added again and started, ends with its old and its new object on one ring |
| Assignments.ReaddExact | nvr_core/apiserver/camera.handler.go:174-185 | deleting settles nothing: after any run with checked assignments, deleting a camera and adding it again is safe if and only if its books were balanced before the deletion |
| Supervision.NextKeeps | cpp_engine/vi/VideoIngestion.cpp:688-715 | each event keeps: at most one START, object or notice of each camera is under way, and none while its profile is marked stopped |
| Supervision.UnsettledAssignShares | nvr_core/process/worker.go:334-349 | from every such state an assignment with anything of the camera under way, a late stopped notice included, can end with two objects on one ring without a further assignment |
| ChannelPool.EarlyRestartSharesAcrossCameras | cpp_engine/vi/VideoIngestion.cpp:688-691 | a run without it: the old object's clean-up frees the new one's ring and two cameras end up on one ring |
| ChannelPool.FreshIsOk | cpp_engine/memory/SharedMemoryLinux.cpp:87-107 | the pool after Create partitions channels 0 to N-1 |
| ChannelPool.CameraIdentifiesStream | nvr_core/process/manager.go:173-179 | on each worker the camera number identifies the stream if and only if there are two workers or more |
| ChannelPool.StreamsNeverShareRings | nvr_core/process/manager.go:39-42 | with the clamped worker count, different streams hold different (worker, ring) pairs |
| ChannelPool.DecideWorkerAssignIDs | nvr_core/process/manager.go:173-179 | main and sub go to different workers if and only if there are two or more |
| ChannelPool.WorkerCount | nvr_core/process/manager.go:39-42 | two workers, or as many as asked for if that is more |
| ChannelPool.RoundRobin | nvr_core/process/manager.go:173-179 | camera 0's main stream is on worker 0, each next camera's on the next worker cyclically, each sub stream on the worker after its main stream's |
| ChannelPool.ShardingIsBalanced | nvr_core/process/manager.go:173-179 | of any block of consecutive cameras two workers get main streams, and sub streams, that differ in number by at most one |
| Manager.CameraManager.AssignCamera | nvr_core/process/manager.go:139-171 | each profile the camera has is started on its own worker and recorded in the map; a missing profile reaches no worker and no map |
| Manager.CameraManager.RemoveCamera | nvr_core/process/manager.go:198-225 | exactly the two workers the lookups give forget the camera and are told to stop their profile |
| Bump.RunRises | cpp_engine/muxer/TSMuxer.cpp:180-188 | the shared rule's output strictly increases and never falls below its input |
| Bump.RunIsLeast | cpp_engine/muxer/TSMuxer.cpp:180-188 | and it is pointwise below every other such sequence |
| Bump.CarriedIsMaximum | cpp_engine/muxer/TSMuxer.cpp:180-188 | the closed form is the maximum of the inputs so far, each carried forward one tick per packet |
| Bump.RunIsCarried | cpp_engine/muxer/TSMuxer.cpp:180-188 | the output has that closed form |
| Bump.RecoveryIsExact | cpp_engine/muxer/TSMuxer.cpp:180-188 | after a step back of B the k-th packet is unchanged if and only if k times the pace beyond one tick is at least B |
| TsMuxer.Muxer.EnforceMonotonicity | cpp_engine/muxer/TSMuxer.cpp:166-218 | packet, tracker and offset become those of the guard on values |
| TsMuxer.Muxer.MuxVideoPacket | cpp_engine/muxer/TSMuxer.cpp:82-105 | the clone handed to the container and the new state are those of the path on values; the caller's packet is untouched |
| TsMuxer.OnlyDtsMatters | cpp_engine/muxer/TSMuxer.cpp:166-218 | packets without DTS pass and leave no trace in any run |
| TsMuxer.GuardKeepsComposition | cpp_engine/muxer/TSMuxer.cpp:170-205 | the guard keeps PTS minus DTS |
| TsMuxer.GapsAreBounded | cpp_engine/muxer/TSMuxer.cpp:176-215 | on every run every emitted gap is between 1 and 180000 and the offset never decreases |
| TsMuxer.LeastIncreasingMajorant | cpp_engine/muxer/TSMuxer.cpp:180-188 | on every run where the forward-jump branch never fires, the emitted DTS is the least strictly increasing sequence above the input, with its closed form |
| TsMuxer.SteadyGaps | cpp_engine/muxer/TSMuxer.cpp:192-205 | the branch never fires when the first packet and every input gap move forward by at most 180000 |
| TsMuxer.GuardRecovers | cpp_engine/muxer/TSMuxer.cpp:180-188 | exactly when a clock that stepped back is on its own time again |
| TsMuxer.ExactRebasing | cpp_engine/muxer/TSMuxer.cpp:192-205 | on a forward-moving clock every gap up to 180000 is kept and every longer one becomes 3000, for any number of jumps, and the offset is exactly what was cut |
| TsMuxer.AnchoringShiftsComposition | cpp_engine/muxer/TSMuxer.cpp:94-102 | anchoring PTS and DTS separately shifts their distance by the anchors' distance, so PTS stays at or after DTS exactly when the packet's own distance is at least that |
| TsMuxer.MuxIsGuardOnAnchored | cpp_engine/muxer/TSMuxer.cpp:82-105 | once anchored, the whole path is the guard on the anchored DTS, for any packets |
| TsMuxer.MuxFromStart | cpp_engine/muxer/TSMuxer.cpp:89-105 | from the first packet with a PTS, which sets both anchors: it comes out at zero and everything after it is the guard on the anchored DTS |
| SegmentRecorder.Recorder.StartSegment | cpp_engine/storage/SegmentRecorder.cpp:10-76 | every tracker is reset for the new file, whether it then opens or not, and recording is on exactly when it does |
| SegmentRecorder.Recorder.NormalizeTimeline | cpp_engine/storage/SegmentRecorder.cpp:152-197 | rejects exactly audio before the video anchor; otherwise normalises on the packet's own stream only |
| SegmentRecorder.Recorder.SanitizeTimestamps | cpp_engine/storage/SegmentRecorder.cpp:200-257 | packet and trackers become those of the sanitiser on values |
| SegmentRecorder.Recorder.WritePacket | cpp_engine/storage/SegmentRecorder.cpp:78-136 | a stopped recorder does nothing; otherwise trackers and written packets are those of one step on values |
| SegmentRecorder.StreamsAreSeparate | cpp_engine/storage/SegmentRecorder.cpp:86-123 | over any packets each stream's output is what its own packets alone give, audio counted from the first video packet |
| SegmentRecorder.WrittenStream | cpp_engine/storage/SegmentRecorder.cpp:200-257 | one stream of one segment: DTS starts at 0, every gap is between 1 and the allowed maximum, PTS stays at or after DTS |
| SegmentRecorder.WrittenSegment | cpp_engine/storage/SegmentRecorder.cpp:78-136 | both streams of a whole segment at once, and no audio before the first video packet |
| SegmentRecorder.RepairIsBump | cpp_engine/storage/SegmentRecorder.cpp:200-257 | as long as the forward-jump branch does not fire, the written DTS is the bump rule on the normalised and rescaled input |
| SegmentRecorder.RepairIsLeast | cpp_engine/storage/SegmentRecorder.cpp:210-219 | hence the least strictly increasing sequence above it, with its closed form |
| SegmentRecorder.SteadyInput | cpp_engine/storage/SegmentRecorder.cpp:221-227 | the branch does not fire when no step of that input, the first from the last written DTS, exceeds the allowed maximum |
| SegmentRecorder.ExactRebasing | cpp_engine/storage/SegmentRecorder.cpp:200-257 | on a clock that only moves forward, with any number of jumps, every written gap is the input's when it is at most the allowed maximum and the fallback otherwise, and the offset is exactly what was cut |
| SegmentRecorder.SegmentRebasing | cpp_engine/storage/SegmentRecorder.cpp:152-257 | a whole segment of such a clock: it starts at zero and every later gap is the input's or the fallback |
| SegmentRecorder.CompositionKept | cpp_engine/storage/SegmentRecorder.cpp:152-257 | on every run the written PTS is as far after the written DTS as the two are apart once measured from the anchor, not below it, and rescaled |
| SegmentRecorder.DeltasInTicks | cpp_engine/storage/SegmentRecorder.cpp:224-230 | the allowed maximum and the fallback are the most whole ticks in two seconds and in 33 ms |
| SegmentRecorder.StrictExactly | cpp_engine/storage/SegmentRecorder.cpp:225-233 | strict increase on all inputs holds if and only if 33 ms is at least one tick of the file's time base |
| SegmentRecorder.JumpComesOutAsFallback | cpp_engine/storage/SegmentRecorder.cpp:227-242 | a forward jump comes out as exactly the fallback gap, zero in a coarse time base |
| StreamClock.StreamClock.NormalizeVideo | nvr_core/transmux/clock.go:20-49 | the three results and the new clock are those of the step on values |
| StreamClock.StreamClock.NormalizeAudio | nvr_core/transmux/clock.go:51-74 | the two results and the new clock are those of the step on values |
| StreamClock.ClockRun | nvr_core/transmux/clock.go:20-74 | on every mixed run the anchor is the minimum DTS, the last PCR equals the video tracker, the PCR values are the bump rule on the elapsed video time, and on either stream PTS never precedes DTS |
| StreamClock.MinDtsIsMinimum | nvr_core/transmux/clock.go:21-26 | the running anchor is below every DTS and is one of them |
| StreamClock.PcrRises | nvr_core/transmux/clock.go:31-40 | from a new clock the PCR is positive, rises with every video packet, never lags the elapsed time and is the least such sequence |
| StreamClock.DtsFollowsPcr | nvr_core/transmux/clock.go:42-45 | the emitted video DTS is the PCR plus one second exactly when the zero-DTS replacement does not apply or changes nothing |
| StreamClock.DtsRisesWithPcr | nvr_core/transmux/clock.go:20-49 | along a run of nonzero DTS every video packet's DTS is its PCR plus 90000 and its PTS is no earlier |
| StreamClock.StampsRun | nvr_core/transmux/clock.go:42-46 | on every mixed run each PTS is the packet's own, measured from the smallest DTS so far, plus 90000, raised to the emitted DTS where it falls short; a missing DTS is replaced by it, and any other video DTS is the PCR plus 90000 |
| StreamClock.CompositionKept | nvr_core/transmux/clock.go:67-71 | hence a packet whose DTS the tracker did not move keeps its distance between PTS and DTS |
| StreamClock.AudioRun | nvr_core/transmux/clock.go:51-74 | on every mixed run of nonzero DTS the emitted audio DTS is one second after the bump rule on the elapsed audio time |
| StreamClock.AudioRises | nvr_core/transmux/clock.go:58-61 | from a new clock it rises with every audio packet, never lags the elapsed time and is the least such sequence |
| Timeline.CanonicalIsUnique | nvr_core/service/timeline.go:121-166 | a set of segments has at most one canonical timeline |
| Timeline.MergeAllIsCanonical | nvr_core/service/timeline.go:130-166 | on sorted segments the loop computes it: every segment in a block, ends attained, blocks more than 5000 ms apart, no larger gap hidden |
| Timeline.OrderIsIrrelevant | nvr_core/service/timeline.go:123-125 | any two sorted arrangements of the same segments merge to the same blocks, so neither input order nor tie order shows |
| Timeline.TwoSegments | nvr_core/service/timeline.go:141-166 | two recordings share a block exactly when at most 5000 ms lie between them |
| Timeline.MergeIsIdempotent | nvr_core/service/timeline.go:141-166 | merging the blocks again changes nothing |
| Timeline.SegmentsToTimeline | nvr_core/service/timeline.go:112-170 | the array is sorted in place and permuted, and the blocks are the seconds of the canonical timeline of the segments handed in |
| Timeline.SortByStart | nvr_core/service/timeline.go:123-125 | sorts by start time and permutes, with no promise on ties |
| Timeline.TimeRange.ConvertToSeconds | nvr_core/apiserver/dto/timeline.go:32-47 | both ends become those of the conversion on values |
| Timeline.Div1000Truncates | nvr_core/apiserver/dto/timeline.go:32-47 | the division truncates toward zero |
| Timeline.SecondsAreWholeSeconds | nvr_core/apiserver/dto/timeline.go:32-47 | a converted block holds exactly the whole seconds after its start and up to its end, and is empty only for blocks under a second |
| Timeline.SecondsStayApart | nvr_core/service/timeline.go:141-166 | converted blocks stay ordered and disjoint |
| Hub.Hub.Fanout | nvr_core/stream/hub.go:67-105 | one broadcast, for every order of the subscriber map, leaves each subscriber, the set and the cache as the step on values says |
| Hub.Hub.Serve | nvr_core/stream/hub.go:73-104 | one subscriber's turn: late-joiner insertion, caching, send or drop |
| Hub.Hub.TrySend | nvr_core/stream/hub.go:98-104 | a full channel is closed and its subscriber dropped, any other gets the packet |
| Hub.Hub.HandleRegister | nvr_core/stream/hub.go:60-61 | the subscriber joins the set |
| Hub.Hub.HandleUnregister | nvr_core/stream/hub.go:62-66 | a subscriber still in the set leaves it and its channel is closed; any other is left alone |
| Hub.ClosedOnce | nvr_core/stream/hub.go:57-108 | on every run a channel is closed exactly once its subscriber is out and never before |
| Hub.IdealShape | nvr_core/stream/hub.go:74-92 | what an unhindered late joiner gets is all broadcasts in order, with one keyframe inserted just before the first video packet exactly when that is no keyframe and one was cached |
| Hub.DeliveryHasNoHoles | nvr_core/stream/hub.go:57-108 | from any moment on and along every run a subscriber is sent a prefix of that sequence, and all of it while subscribed |
| Hub.SubscriberLife | nvr_core/stream/hub.go:57-108 | both for a subscriber's whole life from registration, with its closings |
| Hub.DroppedWhenBehind | nvr_core/stream/hub.go:98-104 | along every run a subscriber is still subscribed if and only if every broadcast found place for what it was due, one packet or two with a keyframe inserted, beside the packets it had not taken |
| Hub.KeepingUp | nvr_core/stream/hub.go:57-108 | from registration on: one that keeps up receives the whole ideal sequence and is never closed, any other is closed once |
| Hub.DroppedFull | nvr_core/stream/hub.go:82-104 | one that a broadcast drops leaves with its channel full |
| Hub.CacheIsLatestKey | nvr_core/stream/hub.go:69-71 | while only video is broadcast, the cached frame is always the latest keyframe broadcast before |
| Hub.CacheIsLatest | nvr_core/stream/hub.go:69-96 | on every run the cached frame is the latest video keyframe, or audio packet flagged as keyframe while somebody was subscribed |
| Recording.RecorderWorker.WriterWorker | cpp_engine/storage/Recording.cpp:48-114 | the loop's events are those of the recursion on values, and nothing is recording at exit |
| Recording.RecorderWorker.HandlePacket | cpp_engine/storage/Recording.cpp:69-109 | one pass of the loop body |
| Recording.RecorderWorker.FinalizeCurrentSegment | cpp_engine/storage/Recording.cpp:116-131 | closes and reports the running segment, or does nothing |
| Recording.EveryPacketHandedOnce | cpp_engine/storage/Recording.cpp:61-110 | over any queue and clock readings every data packet is handed to the recorder once and in order |
| Recording.LoopObserved | cpp_engine/storage/Recording.cpp:61-112 | the events obey the observer's law: later segments begin with a video keyframe a full minute or more after the last switch, reports match open files, none is open at exit |
| Recording.LawfulReports | cpp_engine/storage/Recording.cpp:116-131 | under that law each opened file is reported exactly once, in order |
| Recording.RotationPartitions | cpp_engine/storage/Recording.cpp:48-131 | all of it together from a fresh worker |
| Recording.SegmentsAreCuts | cpp_engine/storage/Recording.cpp:69-109 | every due rotation happens and no other: the segments started are, in order, the data packets that are the first since the start or a flush, or a video keyframe one minute or more after the last start |
| Recording.LogIsHistory | cpp_engine/storage/Recording.cpp:48-131 | the whole log by position in the queue: those starts, every other packet into the file then open, and each file reported with the length it had when the next segment, a flush or the exit closed it |
| Worker.WorkerProcess.HandleStoppedStream | nvr_core/process/worker.go:90-119 | tables and every camera's statuses become those of the protocol step: that profile is stopped if the camera is assigned and has it, and one restart goes to sleep in any case |
| Worker.WorkerProcess.RestartCam | nvr_core/process/worker.go:438-471 | the protocol step of a waking restart; prints START exactly when the camera is assigned and the profile is stopped |
| Worker.WorkerProcess.StartStreamProfile | nvr_core/process/worker.go:351-364 | marks the profile starting and prints one START with its source and the recording flag |
| Worker.EngineReadsStart | nvr_core/process/worker.go:358-362 | the engine reads back the camera's number, the profile as main or sub, its source and the recording flag, if and only if the source has no space and the number fits |
| Worker.EngineReadsStop | nvr_core/process/worker.go:378-383 | likewise for a stop |
| Worker.WorkerProcess.AssignCam | nvr_core/process/worker.go:334-349 | the protocol step of an assignment: without the profile an error and no effect, otherwise the camera is held and started |
| Worker.WorkerProcess.StopCam | nvr_core/process/worker.go:367-383 | the camera is forgotten with both profiles and STOP is printed; sleeping restarts stay |
| Worker.NextKeeps | nvr_core/process/worker.go:90-119 | every event on any worker keeps: a stopped profile has had a notice since its last restart, and a held camera an assignment since its last stop |
| Worker.LawfulCounts | nvr_core/process/worker.go:438-471 | in a lawful log restarts never outnumber notices |
| Worker.RestartProtocol | nvr_core/process/worker.go:438-471 | over every interleaving of notices, waking goroutines, assignments, stops and reports on all workers: two restarts of a profile are separated by a notice, none comes after a stop until the camera is assigned again, and restarts never outnumber notices |
| Worker.OneGoroutinePerNotice | nvr_core/process/worker.go:111-117 | per worker, camera and profile, restarts and goroutines still asleep together never outnumber notices |
| Worker.SleepersConserved | nvr_core/process/worker.go:111-117 | on every run each notice, of a held camera or not, puts exactly one restart to sleep and each wake ends exactly one |
| Worker.NoticeIsFollowed | nvr_core/process/worker.go:438-471 | a notice about a held profile is followed by a restart when its sleeper wakes |
| Worker.ReportCancelsRestart | nvr_core/process/worker.go:121-139 | unless a status report has come in between |
| Worker.NoRestartAfterStop | nvr_core/process/worker.go:367-383 | told by the events alone: after a stop the worker restarts the camera no more until it is assigned there again |
| Worker.StopsAreLogged | nvr_core/process/worker.go:367-383 | the log the restart law speaks of has every stop |
| Retention.SegmentRepo.PruneOldest | nvr_core/db/repository/segment.go:192-222 | removes the limit oldest rows, or all, loses none of the others, and counts only nonempty paths |
| Retention.EnforceDiskWatermark | nvr_core/service/system.retention.go:80-141 | for all disk readings and database failures it terminates, starts only at 85 per cent or above, reads above 80 before every batch, takes three rows for each active camera in every batch, or all that are left, never evicts a row newer than a survivor, and stops only at or below 80, at a failed deletion or when a batch freed no file; with a camera active and a file for every row that last case means an empty table, and with no camera active nothing is ever evicted |
| Retention.OldestFirstAgain | nvr_core/db/repository/segment.go:193-199 | evicting oldest first in batches is evicting oldest first overall |
| Command.GetLine | cpp_engine/utils/Command.cpp:18-18 | one getline: the characters up to the delimiter, which is consumed, or failure at the end |
| Command.StrSplit | cpp_engine/utils/Command.cpp:13-22 | the loop yields the tokens of the split on values |
| Command.SplitJoinExact | cpp_engine/utils/Command.cpp:13-22 | splitting a joined line gives the same tokens if and only if none contains the delimiter and the last is not empty |
| Command.SplitJoin | cpp_engine/utils/Command.cpp:18-20 | an empty last token is lost, and nothing else |
| Command.LinesExact | nvr_core/process/worker.go:316-325 | the engine reads back the command lines written if and only if none contains a newline |
| Command.ParseCommand | cpp_engine/utils/Command.cpp:24-48 | a valid first token becomes the name and the rest the arguments; anything else is the empty command |
| Command.StoiDecimal | cpp_engine/main.cpp:100-100 | the printed camera number is read back exactly within 32 bits |
| Command.StoiPrefix | cpp_engine/main.cpp:100-100 | what follows the number is ignored |
| Command.StartRoundTrip | nvr_core/process/worker.go:358-362 | a printed START is read back with all four fields if and only if profile and URL have no space and the number fits |
| Command.StartLine | nvr_core/process/worker.go:361-361 | the line as printed, the flag spelled true or false |
| Command.RecordingFlag | cpp_engine/main.cpp:86-88 | of anything in the flag's place only true and 1 turn recording on |
| Command.OnlyKnownCommands | cpp_engine/utils/Command.cpp:9-11 | no other name than the seven is taken for a command |
| Command.WorkerRoundTrip | nvr_core/process/worker.go:327-332 | WORKER is read back with its number |
| Command.ProbeRoundTrip | nvr_core/process/estimate.worker.go:55-55 | PROBE is read back if and only if profile and URL have no space and the URL is not empty |
| Command.ExitIsRead | cpp_engine/utils/Command.cpp:24-48 | EXIT is read without arguments |
| Command.CamCommandRoundTrip | nvr_core/process/worker.go:378-383 | STOP and the recording commands are read back if and only if the profile is nonempty and has no space and the number fits |

## Left out

- Rings of 2 GiB and more, and channels smaller than one header: the 32-bit index sums could wrap or the
  reader's header slice would panic; `Sane` excludes both. Frames larger than the ring are outside the
  writer's contract.
- A ring reset while a reader is polling, and weaker memory orders than the release stores and acquire
  loads give: the interleaving is sequentially consistent.
- Zeroed memory is the state after Create on a new shared-memory file; a file left over from an earlier
  process keeps its bytes, and then only the results with the old-header hypothesis apply.
- SharedMemory.Channel.GetMetrics: the percentage is a real number without rounding.
- SharedMemory.Channel.WriteFrame: not for frames larger than the ring, which the source copies out of bounds.
- SharedMemory.LinuxSharedMemory.WriteFrame: not for frames larger than the ring either.
- SharedMemory.LinuxSharedMemory.Create: each channel has its own array; the byte offsets of the mapping,
  opening and mapping the file are not modelled.
- RingConcurrent.InterleavedFifo: delivers frame images, as copied by the reader; decoding them is the
  header round trip.
- The audio call of the muxer's guard, which passes one variable as tracker and offset.
- Packets without DTS or PTS in the segment recorder, where the source does arithmetic on the missing value,
  and the segment's duration bookkeeping. FFmpeg's rescaling is any monotone function that keeps zero; the
  muxer starts from the rescaled packet.
- SegmentRecorder.Recorder.StartSegment: finishing the previous file, and what FFmpeg does to set up the new one.
- SegmentRecorder.Recorder.NormalizeTimeline: returns the changed packet instead of changing it in place; a
  packet without DTS or PTS is not modelled.
- SegmentRecorder.Recorder.SanitizeTimestamps: returns the trackers it gets by pointer in the source; the two
  deltas are exact quotients, truncated, where the source divides doubles.
- SegmentRecorder.Recorder.WritePacket: a packet without DTS or PTS, and the duration bookkeeping.
- Timeline.SegmentsToTimeline: canonical form is claimed for segments that do not end before they start.
- Timeline.SortByStart: an insertion sort stands for Go's library sort.
- Hub.ClosedOnce: each subscriber registers once, as both handlers do; sending to a re-registered closed
  channel panics in the source. Payload copying in the cache is not modelled.
- Recording.WriterWorker paths: file paths are never empty, as the path generator always ends them in a file
  name.
- Worker.RestartProtocol: the length of the sleep, the restart counter, logging and events, restarting a
  crashed engine process, and a command pipe that fails. Each locked method is one step.
- Worker.WorkerProcess.HandleStoppedStream: stopping the channel's reader, the offline event and the restart
  counter.
- Assignments.RestartsAreDisciplined: the engine only logs that it refused a START for want of a ring, and its
  process is never restarted; STOP commands only make the engine clean up, which it may do at any time
  anyway; commands and notices may overtake each other, which covers the pipes' order.
- Manager.CameraManager.AssignCamera: camera numbers are not negative; a negative one would index no worker.
- Retention.EnforceDiskWatermark: no rows are inserted while it runs, a failed deletion deletes nothing, and
  the vacuum step is left out.
- Command.StoiDecimal: leading white space and a leading plus, which the printers never produce.
- HTTP, ONVIF, SQL, licences, authentication, the web interface, transcoding and bit-stream filters.
