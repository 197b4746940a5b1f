# ArcVision: verified model of the detection pipeline

ArcVision watches pantographs with a visible and an ultraviolet camera. Frames of both kinds are
paired by timestamp, cross a shared-memory ring into the engine, and are searched for arcs; arcs are
tracked over time and graded from 1 (minor spark) to 5 (fatal ablation). This project models the
stateful parts of that pipeline in Dafny and proves what they guarantee. `dafny verify
dfyconfig.toml` checks all of it.

## What is modelled

- **The frame ring** (`FrameRing`, `FrameRingProofs`, `FrameRingRuns`). One producer and one consumer
  share two sequence counters and a four-state flag per slot. Every load, compare-and-swap, copy
  chunk and store is a step of its own, and steps interleave in any order, on a ring of any capacity.
  The flag and the counter of one operation change in different steps, a batch frees many slots
  before the counter moves once, and still the ring is a bounded FIFO. `ShmFrameQueue` is the same
  memory changed in place by whole uninterrupted calls, and `FrameRingCalls` shows that calls nobody
  interrupts, run step by step, answer the same. The ring of the code has 64 slots.
- **The frame synchroniser** (`FrameSyncSpec`, `FrameSync`, `FrameSyncRuns`, `FrameSyncTimes`,
  `MultiStreamSync`). Two bounded buffers per stream and at most one match per push. One match per push
  turns out to be complete, and for frames spaced as a camera spaces them the result does not depend on
  arrival order.
- **The arc lifecycle tracker** (`TrackerSpec`, `ArcLifecycleTracker`, `Kalman` and the `Tracker...`
  modules). Greedy matching of boxes to tracks, a Kalman filter per track, cumulative energy,
  severity, expiry and a trimmed history, for every sequence of calls. As in the code, a new track is
  level 1 whatever its energy, and a stale track can still be matched by the call before its expiry.
  That a track keeps its level is false: `TrackerDeclineRuns.LevelFiveLost` is a run that loses one, and
  `TrackerDecline` says exactly when a level can be lost.
- **Suppression and re-association** (`Geometry`, `UnitCells`, `Nms`, `TrtEngine`, `ArcEvents`,
  `ArcDetector`). Greedy suppression over a list sorted in place, and finding each event's track again by
  overlap. That search is right exactly when the suppression threshold is at most one half:
  `ArcDetector.DetectIdentifies` proves it for all such thresholds, `ArcDetector.AboveHalfConfuses`
  refutes it for every other one.
- **The energy estimator** (`EnergyEstimator`, `EnergyLaw`) in its strided and its packed form, and the
  **pool of execution contexts** (`ContextPool`) under any number of concurrent callers.

`FrameSync`, `MultiStreamSync`, `ArcLifecycleTracker` and `KalmanFilter1D` are proved equal, call by
call, to functions on values (`Step`, `AfterUpdate`, `AfterExpire`, `Update`), and what the system
promises is proved about runs of those functions. What the functions compute is fixed in turn by laws in
plain arithmetic that name none of them: bytes and headers (`FrameRingRuns.PushedAsOffered`), timestamps
(`FrameSyncTimes`), the fields of tracks and of updates (`TrackerNumbers`, `TrackerReports`), the fields
of events (`ArcDetector.DetectPublishes`), cells of a grid (`UnitCells`) and pixels (`EnergyLaw`).

## Assumptions

- Memory is sequentially consistent, and a run of the ring starts from one successful create.
- `double` and `float` are exact reals; sequence numbers, timestamps and ids do not overflow.
- Frame dimensions are not negative, and a push owns as many bytes as it copies.
- What is proved of Kalman filters in tracks is for positive noise parameters, as all tracks have.
- The network's input has a positive width and height.
- Wall-clock readings, the outcome of a device copy, the output of the networks and the choice of
  the next thread to run are inputs and can be anything.

## Model

| member | source | states |
|---|---|---|
| `FrameRingRuns.ExecutionRefines` | cpp/src/shm_frame_queue.cpp:75-222 | in every interleaving of one producer (push, push_gpu) and one consumer (pop, pop_batch) every reached state satisfies the invariant, and every single step is a step of a bounded FIFO holding the slots numbered read_seq to write_seq-1 |
| `FrameRingRuns.NothingLost` | cpp/src/shm_frame_queue.cpp:75-222 | at any moment the frames of all successful pushes, in order, are the frames of all pops so far followed by the frames still queued |
| `FrameRingRuns.NoCollision` | cpp/src/shm_frame_queue.cpp:90-128 | no compare-and-swap ever fails: -3 and the early exit of pop_batch are unreachable |
| `FrameRingRuns.WriterAndReaderApart` | cpp/src/shm_frame_queue.cpp:199-220 | the slot being written is never the slot being read, nor any slot of the running batch, even while batch slots are FREE and read_seq has not moved |
| `FrameRingRuns.PushedAsOffered` | cpp/src/shm_frame_queue.cpp:96-104 | a frame that becomes visible carries every field of the header of the call that pushed it, but for the wall time, which a step of that call has read, and exactly the first n bytes of its data, n being width * height * channels or 1920 * 1080 * 3, whichever is less |
| `FrameRingRuns.PoppedAsOffered` | cpp/src/shm_frame_queue.cpp:109-222 | the m-th frame ever delivered, by pop or in a batch, is that of the m-th successful push, and carries what that call offered |
| `FrameRingRuns.ProducerWaitFree` | cpp/src/shm_frame_queue.cpp:75-107 | each producer step strictly decreases a bound that the consumer cannot raise, so a push always returns |
| `FrameRingRuns.ConsumerWaitFree` | cpp/src/shm_frame_queue.cpp:185-222 | each consumer step strictly decreases a bound that the producer cannot raise, so a pop or batch always returns |
| `FrameRingRuns.CreatedInv` | cpp/src/shm_frame_queue.cpp:53-60 | a freshly created queue satisfies the invariant and is empty |
| `FrameRingCalls.LonePushAnswers` | cpp/src/shm_frame_queue.cpp:75-183 | a push or push_gpu nobody interrupts, run step by step from its first load to its return, answers -2, -4 or 0 and changes the queue as `ShmFrameQueue.Queue.Push` does |
| `FrameRingCalls.LonePopAnswers` | cpp/src/shm_frame_queue.cpp:109-222 | a pop or pop_batch nobody interrupts, run step by step, answers and removes frames as `ShmFrameQueue.Queue.Pop` and `PopBatch` do |
| `FrameRingCalls.PushGoesOn` | cpp/src/shm_frame_queue.cpp:80-104 | one step of such a push keeps the queue as it was until the step that returns |
| `FrameRingCalls.PopGoesOn` | cpp/src/shm_frame_queue.cpp:193-220 | one step of such a pop keeps the queue as it was until the step that returns |
| `FrameRingProofs.StepRefines` | cpp/src/shm_frame_queue.cpp:75-222 | one step from any good state leads to a good state and is legal for the FIFO: full exactly when N frames are queued at the load, empty exactly when none are, a failed device copy changes nothing |
| `FrameRingProofs.BeginRefines` | cpp/src/shm_frame_queue.cpp:80-81 | the first load of a call touches no shared memory |
| `FrameRingProofs.ReadLoadRefines` | cpp/src/shm_frame_queue.cpp:81-85 | the producer's load of read_seq decides full exactly |
| `FrameRingProofs.WriteLoadRefines` | cpp/src/shm_frame_queue.cpp:193-197 | the consumer's load of write_seq decides empty, or the size of the batch, exactly |
| `FrameRingProofs.ClaimRefines` | cpp/src/shm_frame_queue.cpp:87-94 | the producer finds FREE at write_seq, and claiming it changes no queued frame |
| `FrameRingProofs.HeaderStoreRefines` | cpp/src/shm_frame_queue.cpp:96-97 | header stores into the claimed slot are invisible to the queue |
| `FrameRingProofs.CopyInRefines` | cpp/src/shm_frame_queue.cpp:99-101 | a chunk of the copy into the claimed slot is invisible, and the bytes copied so far are those of the call |
| `FrameRingProofs.UnclaimRefines` | cpp/src/shm_frame_queue.cpp:171-179 | READY before write_seq moves, or FREE after a failed device copy, leaves the queue as it was |
| `FrameRingProofs.AdvanceRefines` | cpp/src/shm_frame_queue.cpp:104 | the store of write_seq is the moment the frame is appended |
| `FrameRingProofs.TakeRefines` | cpp/src/shm_frame_queue.cpp:121-128 | the consumer finds READY at read_seq plus the number already delivered |
| `FrameRingProofs.ReadHeaderRefines` | cpp/src/shm_frame_queue.cpp:130 | the header read is that of the oldest undelivered frame |
| `FrameRingProofs.CopyOutRefines` | cpp/src/shm_frame_queue.cpp:132-135 | the bytes copied out so far are those of the claimed frame |
| `FrameRingProofs.ReleaseRefines` | cpp/src/shm_frame_queue.cpp:216-217 | FREE before read_seq moves delivers one frame and leaves the queue as it was |
| `FrameRingProofs.RetireRefines` | cpp/src/shm_frame_queue.cpp:220 | the store of read_seq is the moment all delivered frames leave the queue, and frees their slots for the producer |
| `FrameRingProofs.DistinctSlots` | cpp/src/shm_frame_queue.cpp:87 | two sequence numbers less than a capacity apart name different slots |
| `ShmFrameQueue.Queue.constructor` | cpp/src/shm_frame_queue.cpp:53-60 | the created queue is valid and empty |
| `ShmFrameQueue.Queue.Push` | cpp/src/shm_frame_queue.cpp:75-107 | answers -2 exactly when full, -4 exactly when the device copy of push_gpu (lines 143-183) fails, and otherwise appends one frame: the header offered with the wall time of the call, and the first n bytes offered, n being width * height * channels or 1920 * 1080 * 3, whichever is less |
| `ShmFrameQueue.Queue.Pop` | cpp/src/shm_frame_queue.cpp:109-141 | answers -2 exactly when empty and otherwise removes and returns the oldest frame; the memory becomes `Dequeue` of what it was |
| `ShmFrameQueue.Queue.PopBatch` | cpp/src/shm_frame_queue.cpp:185-222 | delivers and removes exactly the oldest max(0, min(available, max_count)) frames, and leaves the whole memory, slots and counters, as that many calls of pop would |
| `ShmFrameQueue.Queue.Deliver` | cpp/src/shm_frame_queue.cpp:203-216 | a ready slot is copied out, its header and as many bytes as the dimensions in that header say, and freed; any other slot is left alone |
| `ShmFrameQueue.Queue.DeliverUpTo` | cpp/src/shm_frame_queue.cpp:199-218 | the batch loop never breaks early, and each round does to the memory what one more pop does, but for read_seq |
| `ShmFrameQueue.PopsDeliver` | cpp/src/shm_frame_queue.cpp:109-222 | after n whole pops on the shared memory the queue is sound and holds what was behind its first n frames |
| `ShmFrameQueue.NextReady` | cpp/src/shm_frame_queue.cpp:200-214 | the slot a batch claims after n deliveries is ready and holds frame n, although read_seq has not moved |
| `ShmFrameQueue.NextPop` | cpp/src/shm_frame_queue.cpp:216-220 | freeing that slot is one more pop, but for read_seq |
| `ShmFrameQueue.Enqueued` | cpp/src/shm_frame_queue.cpp:96-104 | filling the slot at write_seq and moving the counter appends one frame |
| `ShmFrameQueue.Unpublished` | cpp/src/shm_frame_queue.cpp:173-176 | whatever a failed device copy leaves in the slot, the queue is unchanged |
| `ShmFrameQueue.Dequeued` | cpp/src/shm_frame_queue.cpp:121-138 | freeing the slot at read_seq and moving the counter removes the oldest frame |
| `FrameSyncRuns.ArrivalOrderIrrelevant` | pkg/sync/framesync.go:49-114 | two runs fed the same spaced frames in whatever order, without evictions, emit the same pairs |
| `FrameSyncRuns.ExactlyTheClosePairs` | pkg/sync/framesync.go:49-114 | when frames of a kind lie more than two tolerances apart and nothing is evicted or drained, the emitted pairs are exactly the close pairs; in nanoseconds this is `FrameSyncTimes.EmittedIffWithinTolerance` |
| `FrameSyncTimes.EmittedIffWithinTolerance` | pkg/sync/framesync.go:49-114 | the same on the timestamps: for pushed frames v and u, the pair is emitted if and only if -tolerance <= v - u <= tolerance |
| `FrameSyncTimes.EmittedWithinTolerance` | pkg/sync/framesync.go:67-105 | over every run, both frames of an emitted pair were pushed and their timestamps differ by at most the tolerance |
| `FrameSyncTimes.BufferedBeyondTolerance` | pkg/sync/framesync.go:67-105 | after every call of every run, the timestamps of any two buffered frames of different kinds differ by more than the tolerance |
| `FrameSyncTimes.RecentWithinToleranceEmitted` | pkg/sync/framesync.go:49-114 | a pair of spaced frames at most the tolerance apart is emitted if both are recent at some moment, whatever is evicted |
| `FrameSyncTimes.MatchTakesTheClosest` | pkg/sync/framesync.go:67-105 | a match finds two frames no other two of the buffers are closer than, and removes and emits exactly these if they lie within the tolerance; otherwise it changes nothing |
| `FrameSyncTimes.PushedAreTheCalls` | pkg/sync/framesync.go:49-65 | the frames a run accounts for are those of its calls, in order |
| `FrameSyncRuns.ClosePairEmitted` | pkg/sync/framesync.go:49-114 | among spaced frames, none drained, a pair within the tolerance is emitted whenever both its frames are at some moment among the last maxBufferSize of their kind, whatever else is evicted |
| `FrameSyncRuns.PairsNeverCross` | pkg/sync/framesync.go:67-105 | with spaced frames arriving in time order, emitted pairs strictly increase in both timestamps |
| `FrameSyncRuns.RunGood` | pkg/sync/framesync.go:49-122 | after every call of every run no close pair is buffered, buffers are bounded and in arrival order, and every pushed frame is buffered, emitted, evicted or drained exactly once |
| `FrameSyncRuns.StepKeeps` | pkg/sync/framesync.go:49-122 | one call keeps all of that |
| `FrameSyncRuns.TryMatchKeeps` | pkg/sync/framesync.go:67-105 | one match per push is enough to leave no close pair behind |
| `FrameSyncRuns.EnterKeeps` | pkg/sync/framesync.go:107-114 | pushing and evicting keeps the bound, the order and the accounting |
| `FrameSyncRuns.VisiblePushScansOnce` | pkg/sync/framesync.go:49-105 | the quadratic search after a visible push amounts to one scan of the UV buffer, first minimum winning |
| `FrameSyncRuns.UVPushScansOnce` | pkg/sync/framesync.go:58-105 | the same for a UV push and the visible buffer |
| `FrameSyncRuns.EmissionHasThePush` | pkg/sync/framesync.go:49-105 | a call emits at most one pair, and that pair contains the frame just pushed |
| `FrameSyncRuns.RecentPairEmitted` | pkg/sync/framesync.go:49-114 | in a good state a close pair of recent spaced frames is among the emitted ones: no other place is left for it |
| `FrameSyncRuns.FreshIsKept` | pkg/sync/framesync.go:107-114 | among spaced frames, none drained, one with fewer than maxBufferSize later frames of its kind is still buffered or has been emitted |
| `FrameSyncRuns.OldestIsStale` | pkg/sync/framesync.go:107-114 | what eviction removes has maxBufferSize later frames of its kind |
| `FrameSyncRuns.PartnersInOrder` | pkg/sync/framesync.go:80-94 | of two close pairs whose visible frames are more than two tolerances apart, the later visible frame has the later partner |
| `FrameSyncSpec.Best` | pkg/sync/framesync.go:72-90 | the pair found is closest, and among equally close ones the first met by the two nested scans |
| `FrameSync.FrameSync.constructor` | pkg/sync/framesync.go:35-43 | any limit is taken, both buffers start empty and nothing has been emitted |
| `FrameSync.FrameSync.AlwaysGood` | pkg/sync/framesync.go:49-122 | between calls no close pair is buffered in the object, its buffers are bounded, and every frame pushed is accounted for, whatever the calls were |
| `FrameSync.FrameSync.AlwaysInTime` | pkg/sync/framesync.go:49-122 | in nanoseconds: every pair the callback has received is within the tolerance, its first frame visible and its second UV, and any two frames still buffered are beyond it |
| `FrameSync.FrameSync.SyncedIffInTime` | pkg/sync/framesync.go:49-114 | with spaced frames, none drained or evicted, the callback has received exactly the pushed pairs within the tolerance |
| `FrameSync.FrameSync.PushVisible` | pkg/sync/framesync.go:49-56 | appends, evicts the oldest, then matches; the callback receives exactly what the specification emits for the calls so far |
| `FrameSync.FrameSync.PushUV` | pkg/sync/framesync.go:58-65 | the same for UV frames |
| `FrameSync.FrameSync.RunMatch` | pkg/sync/framesync.go:67-105 | the nested loops over both lists end with the first closest pair, which is removed and emitted if it is within the tolerance; what that means in nanoseconds is `FrameSyncTimes.MatchTakesTheClosest` |
| `FrameSync.FrameSync.EvictOld` | pkg/sync/framesync.go:107-114 | for a limit that is not negative the loop ends and drops exactly the oldest frames over it |
| `FrameSyncSpec.EvictionEndsIff` | pkg/sync/framesync.go:107-114 | the eviction loop reaches its exit test after some number of passes if and only if the limit is not negative; with a negative one it runs forever |
| `FrameSync.FrameSync.Drain` | pkg/sync/framesync.go:116-122 | both buffers become empty and nothing is emitted |
| `FrameSync.FrameSync.QueueLengths` | pkg/sync/framesync.go:124-128 | the numbers of buffered frames |
| `MultiStreamSync.MultiStreamSync.constructor` | pkg/sync/framesync.go:138-144 | no stream exists at first |
| `MultiStreamSync.MultiStreamSync.GetOrCreateSync` | pkg/sync/framesync.go:150-172 | an existing stream is returned as it is, a new one starts empty, no other one changes |
| `MultiStreamSync.MultiStreamSync.PushVisible` | pkg/sync/framesync.go:174-177 | the stream named takes one step, every other stream keeps its whole history, and each stream stays where its own calls alone would have taken it |
| `MultiStreamSync.MultiStreamSync.PushUV` | pkg/sync/framesync.go:179-182 | the same for UV frames |
| `MultiStreamSync.MultiStreamSync.Drain` | pkg/sync/framesync.go:184-191 | every stream is drained, in whatever order the map is walked, and each stays where its own calls alone would have taken it |
| `MultiStreamSync.OneMoreCall` | pkg/sync/framesync.go:150-191 | one more call, on whatever stream, takes each stream one step of its own calls on, or none |
| `ArcDetector.DetectIdentifies` | cpp/src/arc_detector.cpp:137-195 | for nms_thresh at most 0.5, after any history of the tracker, positive track ids are distinct and id 0 marks exactly the boxes without positive width and height |
| `ArcDetector.AboveHalfConfuses` | cpp/src/arc_detector.cpp:137-195 | for every larger threshold this fails: two surviving events get the same track from a fresh tracker |
| `ArcDetector.DetectPublishes` | cpp/src/arc_detector.cpp:137-195 | at every threshold, after any history: each published event has box, confidence, time, stream and intensity of its survivor and the energy of its box; with a positive id its level, energies, frame count and duration are those of a track of the tracker right after the update, which it overlaps by more than half; with id 0, which is exactly without positive width and height, it is level 1, one frame, duration 0, and has only its own energy |
| `ArcDetector.CallPublishes` | cpp/src/arc_detector.cpp:137-195 | one call does so for any tracker |
| `ArcDetector.EventOwnsTrack` | cpp/src/arc_detector.cpp:159-182 | for thresholds of at most one half the track an event agrees with has the box and the energy of that event |
| `ArcDetector.TrackedIffProper` | cpp/src/arc_detector.cpp:159-192 | at any threshold an event gets a track exactly if its box has positive width and height |
| `ArcDetector.AssociatePlaces` | cpp/src/arc_detector.cpp:159-193 | an event agrees in every field with a track some near update describes, or stands alone |
| `ArcDetector.EventFindsItsTrack` | cpp/src/arc_detector.cpp:159-193 | an event of positive width and height is associated with exactly the update made from its own detection; any other takes the fallback |
| `ArcDetector.DistinctTracks` | cpp/src/arc_detector.cpp:159-193 | no two events share a positive track id |
| `ArcDetector.NearOnlyItsOwn` | cpp/src/arc_detector.cpp:161-174 | among separated boxes an overlap above one half means the same, proper, box |
| `ArcDetector.OwnUpdate` | cpp/src/arc_detector.cpp:151-157 | each event has its own update, with its box and energy unchanged, and every other update belongs to another event |
| `ArcDetector.SurvivorsReady` | cpp/src/arc_detector.cpp:137-149 | whatever the network reports, the measured survivors are separated and carry no track id yet |
| `ArcDetector.DetectKeepsIds` | cpp/src/arc_detector.cpp:151-152 | update followed by expiry keeps the ids of the tracker in order and accounted for |
| `ArcDetector.Detect` | cpp/src/arc_detector.cpp:126-195 | without regions of interest only expiry happens; otherwise suppress, measure, update, expire, re-associate, in that order; every event is a survivor with its energy, agrees field by field with a track of the tracker right after the update or stands alone, and for thresholds of at most one half that track is its own |
| `ArcEvents.DetectArcInRois` | cpp/src/arc_detector.cpp:245-305 | exactly the detections of the regions at least 32 pixels wide and high become events, one each, in order, at the place in the image proportional to that in the region cut to whole pixels, with their confidence and that spread over their area, of level 1, without energy and without a track |
| `ArcEvents.RawEventsExact` | cpp/src/arc_detector.cpp:245-298 | every event reports a detection of a region large enough, and every such detection is reported |
| `ArcEvents.RawEventsInOrder` | cpp/src/arc_detector.cpp:257-301 | detection k of a large region is the event behind those of all large regions before it and of the k detections before it, and there are no others |
| `ArcEvents.MappingKeepsOverlap` | cpp/src/arc_detector.cpp:276-279 | two detections of one region overlap in the image as they do in the network's input, and keep a positive width and height |
| `ArcEvents.MappedInside` | cpp/src/arc_detector.cpp:276-279 | a detection inside the network's input ends up inside its region |
| `ArcDetector.Measure` | cpp/src/arc_detector.cpp:139-149 | boxes and energies handed to the tracker are those of the events, in order |
| `ArcDetector.Reassociate` | cpp/src/arc_detector.cpp:159-193 | the nested loops with their break give each event the first update overlapping it by more than one half, or the fallback; field by field this is `ArcDetector.AssociatePlaces` |
| `Nms.Run` | cpp/src/arc_detector.cpp:307-348 | sorts the array in place into descending order, a permutation, and returns exactly the surviving elements in that order; what overlapping means is `UnitCells.DrawnOverlapCounts` |
| `Nms.Mark` | cpp/src/arc_detector.cpp:316-341 | the nested loops mark exactly the positions that an earlier survivor overlaps by more than the threshold |
| `Nms.Collect` | cpp/src/arc_detector.cpp:343-347 | the unmarked elements are the survivors in order |
| `Nms.SortByConfidence` | cpp/src/arc_detector.cpp:311-314 | descending confidences and the same multiset of elements |
| `Nms.SelectionUnique` | cpp/src/arc_detector.cpp:316-341 | the survivors are the only set in which a position is kept exactly when no kept earlier one overlaps it above the threshold |
| `Nms.SurvivorsSeparated` | cpp/src/arc_detector.cpp:317-341 | no two survivors overlap above the threshold |
| `Nms.SurvivorsDescend` | cpp/src/arc_detector.cpp:343-347 | the survivors stay in descending order of confidence |
| `Nms.RemovedIsCovered` | cpp/src/arc_detector.cpp:337-339 | every removed box is overlapped by a survivor of at least its confidence |
| `Nms.Idempotent` | cpp/src/arc_detector.cpp:307-348 | suppressing a result again, however it is sorted, removes nothing |
| `Nms.InputOrderIrrelevant` | cpp/src/arc_detector.cpp:307-348 | with distinct confidences the result does not depend on the input order |
| `Nms.OneSortedOrder` | cpp/src/arc_detector.cpp:311-314 | with distinct confidences there is one sorted order only |
| `Nms.SurvivorsComplete` | cpp/src/arc_detector.cpp:343-346 | every surviving position is in the list of survivors |
| `TrtEngine.Postprocess` | cpp/src/trt_engine.cpp:260-317 | the survivors, by the same specification as in the detector, of the rows confident enough: separated and in descending order |
| `TrtEngine.FilterByScore` | cpp/src/trt_engine.cpp:264-277 | exactly the rows whose product of scores reaches the threshold, in row order, each with its box, that product and the whole part of its last number |
| `TrtEngine.ConfidentReads` | cpp/src/trt_engine.cpp:264-277 | the detections read the rows at strictly increasing positions, and those are exactly the positions of the rows that reach the threshold |
| `Geometry.IoUSymmetric` | cpp/src/arc_severity.cpp:184-201 | intersection, union and their ratio do not depend on the order of the two boxes |
| `Geometry.IoUSelf` | cpp/src/arc_severity.cpp:184-201 | a box of positive width and height overlaps itself entirely |
| `Geometry.IoUAtMostOne` | cpp/src/arc_severity.cpp:184-201 | no two boxes overlap by more than the whole |
| `Geometry.StretchKeepsIoU` | cpp/src/arc_severity.cpp:184-201 | the ratio does not depend on the scale at which the two boxes are drawn, nor on where |
| `Geometry.ImproperOverlapsNothing` | cpp/src/arc_severity.cpp:191-200 | an empty or inverted box has overlap 0 with every box |
| `UnitCells.InterCounts` | cpp/src/arc_severity.cpp:186-193 | on a grid, the intersection of two boxes is the number of cells in both |
| `UnitCells.UnionCounts` | cpp/src/arc_severity.cpp:195-198 | and their union is the number of cells in either |
| `UnitCells.OverlapCounts` | cpp/src/arc_detector.cpp:321-337 | the ratio is cells in both over cells in either, and one box suppresses another if and only if the cells in both are more than threshold times the cells in either |
| `UnitCells.DrawnOverlapCounts` | cpp/src/arc_detector.cpp:321-337 | so it is on a grid of any mesh and origin, hence for all boxes with rational corners |
| `TrackerEnergyOrder.RunMonotone` | cpp/src/arc_severity.cpp:47-172 | two runs with equal timestamps and boxes and pointwise larger energies keep the same tracks, ids and expiries, with energies and severities at least as high |
| `TrackerEnergyOrder.EveryUpdateMonotone` | cpp/src/arc_severity.cpp:47-152 | and so does every update any call of the two runs returns |
| `TrackerEnergyOrder.UpdateStepMonotone` | cpp/src/arc_severity.cpp:47-152 | one call matches alike in both runs, and what it computes is ordered |
| `TrackerEnergyOrder.ClassifyMonotone` | cpp/src/arc_severity.cpp:203-227 | the classifier never answers lower for more energy or a longer life, whatever the thresholds |
| `TrackerSeverity.SeverityNeverFallsBelowFloor` | cpp/src/arc_severity.cpp:71-227 | with non-negative energies and non-decreasing timestamps the level implied by cumulative energy and duration never falls along a track, bounds the severity from the second frame on, and a level of exactly 2 or 4 is never followed by a lower one |
| `TrackerDecline.LostIffQuietLoses` | cpp/src/arc_severity.cpp:71-109 | a track can come to report less than a level if and only if some number of matches of energy zero, with time standing still, make it do so |
| `TrackerDecline.QuietIsLeast` | cpp/src/arc_severity.cpp:71-109 | however a track is matched n times, with energies not negative, it has at least the energy and the level n quiet matches would leave it |
| `TrackerDecline.LostIffLostWhenSettled` | cpp/src/arc_severity.cpp:82-92 | the exact condition: a level can be lost if and only if it is lost at the first quiet match at which smoothed energy no longer gives it, that is, if cumulative energy is still below its limit then and the duration is below its limit |
| `TrackerDecline.SomeTimeSettles` | cpp/src/arc_severity.cpp:25-29 | for a positive limit on smoothed energy there is such a first moment, because smoothed energy falls at least like r/(r + n*q) |
| `TrackerDecline.NeverLostAtZero` | cpp/src/arc_severity.cpp:206-220 | without a positive limit on smoothed energy no level is ever lost |
| `TrackerDecline.LostReadably` | cpp/src/arc_severity.cpp:71-92 | read off the track before the call: lost in some continuation if cumulative + smoothed*(r/q)/30 is below the cumulative limit and the other limits are open; and only if the energy of one quiet match leaves it below |
| `TrackerDecline.BelowLimits` | cpp/src/arc_severity.cpp:203-227 | the classifier answers less than a level exactly when cumulative energy, smoothed energy and duration are all below the least of the thresholds that give it or more |
| `TrackerDecline.RestedBounds` | cpp/src/arc_severity.cpp:25-29 | quiet matches never add more than smoothed*(r/q)/30 to the cumulative energy |
| `TrackerDeclineRuns.NeverBelowQuiet` | cpp/src/arc_severity.cpp:47-172 | in any orderly run of the tracker a track matched k more times reports at least what k quiet matches would report |
| `TrackerDeclineRuns.LostInSomeRun` | cpp/src/arc_severity.cpp:47-172 | for any active track of any orderly run: some orderly continuation makes it report less than a level if and only if its box has an area, the matching threshold is at most 1, and the track can lose that level |
| `TrackerDeclineRuns.EachClaimsItself` | cpp/src/arc_severity.cpp:55-72 | when the detections are the boxes of the tracks, every track whose box has an area claims its own |
| `TrackerDeclineRuns.LevelFiveLost` | cpp/src/arc_severity.cpp:206-226 | a run of three calls on one proper box: a burst makes its track level 5, and one quiet match makes it level 1 |
| `TrackerLives.RunDescends` | cpp/src/arc_severity.cpp:47-172 | every active track that existed n calls into a run is what an active track was then, after some matches |
| `TrackerLives.SameTrackDescends` | cpp/src/arc_severity.cpp:47-172 | the same id at two moments of a run is the same track, later only by matches |
| `TrackerSeverity.FloorMonotone` | cpp/src/arc_severity.cpp:203-227 | the implied level grows with cumulative energy and duration, whatever the order of the thresholds |
| `TrackerSeverity.ClassifyAboveFloor` | cpp/src/arc_severity.cpp:203-227 | the classifier answers at least the implied level, and exactly it when the answer is 2 or 4 |
| `TrackerConservation.RunConserves` | cpp/src/arc_severity.cpp:47-182 | over any calls every id issued is in exactly one of active, completed and trimmed, active ids increase along the deque, and frame counts sum to the detections fed |
| `TrackerConservation.OneTrackPerId` | cpp/src/arc_severity.cpp:174-182 | at most one track of the two searched containers carries a given id |
| `TrackerConservation.OneUpdatePerDetection` | cpp/src/arc_severity.cpp:47-152 | each detection is answered by exactly one update, which carries its box and energy |
| `TrackerReports.EveryUpdateAnswered` | cpp/src/arc_severity.cpp:94-149 | every update of a call names exactly one track of the deque the call leaves, and gives its box, energies, level, frame count and time from start to now; it is new exactly if its id was not issued before, and escalated exactly if a track of that id had a lower level before |
| `TrackerReports.UpdateHasTrack` | cpp/src/arc_severity.cpp:94-149 | whatever the ids of the tracker, an update agrees field by field with a track of the new deque |
| `TrackerReports.UnnamedIsUnchanged` | cpp/src/arc_severity.cpp:55-149 | a track no update names is an old one and has not changed |
| `TrackerNumbers.EveryTrackExplained` | cpp/src/arc_severity.cpp:71-132 | after a call every track is an old one unchanged, an old one advanced by one detection overlapping it enough, or one opened by a detection under the next id but its place |
| `TrackerNumbers.DequeExplained` | cpp/src/arc_severity.cpp:47-152 | so is the whole deque: the old tracks in order and behind them as many new ones as ids were issued |
| `TrackerNumbers.TouchAdvances` | cpp/src/arc_severity.cpp:75-92 | a matched track keeps its id, stream, start and flag, takes the box, time and energy of the call, counts one frame more, smooths as `Kalman.Corrects` says, gains a thirtieth of the smoothed energy, and gets the level `TrackerNumbers.Graded` fixes |
| `TrackerNumbers.NewTrackOpened` | cpp/src/arc_severity.cpp:116-130 | a new track starts and was last seen now, has one frame, level 1, the energy of its detection as smoothed and instant energy, a thirtieth of it as cumulative energy, and a filter with noises 0.01 and 0.1 and variance 1 |
| `TrackerNumbers.ClassifyGrades` | cpp/src/arc_severity.cpp:203-227 | the classifier gives the one level that is at least 5, 4, 3 or 2 exactly if a threshold of that level or a higher one is reached |
| `TrackerNumbers.ExpiryExplained` | cpp/src/arc_severity.cpp:154-172 | a track stays exactly if it was seen at most the gap ago; the others go, flagged and in order, behind the history, which then gives up its oldest tracks, and only as many as exceed a limit that is not negative |
| `TrackerConservation.OriginsAreAPermutation` | cpp/src/arc_severity.cpp:71-114 | claims and unclaimed detections together are each detection once |
| `TrackerConservation.UpdateIdsAscend` | cpp/src/arc_severity.cpp:94-149 | the updates of one call carry strictly increasing positive ids |
| `TrackerConservation.UpdateKeepsIds` | cpp/src/arc_severity.cpp:113-149 | new ids are the next ones, and go to the end of the deque |
| `TrackerConservation.UpdateKeepsFrames` | cpp/src/arc_severity.cpp:80-121 | one call adds exactly as many frames as it has detections |
| `TrackerConservation.ExpireConserves` | cpp/src/arc_severity.cpp:154-172 | expiry and trimming move tracks without losing an id or a frame |
| `TrackerConservation.MatchedPlusNew` | cpp/src/arc_severity.cpp:71-114 | matched and new tracks are as many as there are detections |
| `TrackerMatching.Stable` | cpp/src/arc_severity.cpp:55-72 | a pair reaching a positive threshold and not matched has a reason: the track got at least as much overlap, or the detection went to an older track |
| `TrackerMatching.OneToOne` | cpp/src/arc_severity.cpp:55-72 | matches are one-to-one and reach the threshold |
| `TrackerMatching.MatchingUsesOldBoxes` | cpp/src/arc_severity.cpp:55-78 | all overlaps are taken with the boxes the tracks had before the call, although boxes are overwritten during it |
| `TrackerMatching.BestOf` | cpp/src/arc_severity.cpp:57-69 | if an unclaimed detection overlaps, the scan has a first best one |
| `TrackerEnergyBounds.RunWithin` | cpp/src/arc_severity.cpp:82-128 | a track of n frames with energies in [lo, hi] has cumulative energy in [n*lo/30, n*hi/30], wherever the track is now |
| `TrackerEnergyBounds.NotBeforeEnoughFrames` | cpp/src/arc_severity.cpp:82-92 | with energies of at most hi, a cumulative energy of L takes at least 30*L/hi frames |
| `TrackerEnergyBounds.ImagesNeedFrames` | cpp/src/arc_severity.cpp:203-258 | measured on W by H images, it takes at least 30*L/(W*H) frames |
| `TrackerEnergyBounds.EnoughFramesSustain` | cpp/src/arc_severity.cpp:206-215 | two frames or more of at least lo with n*lo/30 at the level-4 threshold give severity at least 4 |
| `TrackerSpec.Choice` | cpp/src/arc_severity.cpp:57-72 | the detection claimed is the first best unclaimed one, if it reaches the threshold |
| `TrackerSpec.GreedyAt` | cpp/src/arc_severity.cpp:55-72 | the choice of a track depends on its box and on the choices of older tracks only |
| `TrackerSpec.ActiveOrigin` | cpp/src/arc_severity.cpp:71-132 | a track of the deque is an old one, an old one touched by one detection, or a new one |
| `ArcLifecycleTracker.ArcLifecycleTracker.constructor` | cpp/src/arc_severity.cpp:38-45 | no tracks, and 1 is the next id |
| `ArcLifecycleTracker.ArcLifecycleTracker.UpdateTracks` | cpp/src/arc_severity.cpp:47-152 | deque, counter and returned updates are those of the value-level update; every track afterwards is explained in plain numbers by at most one detection, and every update agrees field by field with the one track of its id |
| `ArcLifecycleTracker.ArcLifecycleTracker.MatchTracks` | cpp/src/arc_severity.cpp:55-111 | the first loop, updating tracks in place, makes the greedy matching of the old boxes |
| `ArcLifecycleTracker.ArcLifecycleTracker.MatchTrack` | cpp/src/arc_severity.cpp:56-110 | one track claims its choice, or nothing changes |
| `ArcLifecycleTracker.ArcLifecycleTracker.BestDetection` | cpp/src/arc_severity.cpp:57-69 | the running maximum ends with the first best unclaimed detection |
| `ArcLifecycleTracker.ArcLifecycleTracker.TouchTrack` | cpp/src/arc_severity.cpp:75-108 | the fields of a matched track move as in `TrackerNumbers.TouchAdvances`, the update repeats them, and it is escalated exactly if the level has risen |
| `ArcLifecycleTracker.ArcLifecycleTracker.OpenTracks` | cpp/src/arc_severity.cpp:113-149 | every unclaimed detection opens a level-1 track under the next id |
| `ArcLifecycleTracker.ArcLifecycleTracker.OpenTrack` | cpp/src/arc_severity.cpp:116-148 | one new track with the next id, first and last seen now, one frame, level 1, and the energy of its detection; its update repeats the fields and is new |
| `ArcLifecycleTracker.ArcLifecycleTracker.ExpireOldTracks` | cpp/src/arc_severity.cpp:154-172 | stale tracks move to the history, whose oldest ones are trimmed, as in `TrackerNumbers.ExpiryExplained` |
| `ArcLifecycleTracker.ArcLifecycleTracker.RetireStale` | cpp/src/arc_severity.cpp:155-160 | exactly the tracks older than the gap are flagged and copied to the history |
| `ArcLifecycleTracker.ArcLifecycleTracker.RemoveInactive` | cpp/src/arc_severity.cpp:162-165 | exactly the tracks not flagged stay, in order |
| `ArcLifecycleTracker.ArcLifecycleTracker.GetTrack` | cpp/src/arc_severity.cpp:174-182 | the first track of that id, active ones before completed ones, or none if there is none |
| `Kalman.WithinMeasurements` | cpp/src/arc_severity.cpp:19-32 | after any number of updates the estimate lies between the least and the greatest measurement seen |
| `Kalman.UpdateCorrects` | cpp/src/arc_severity.cpp:19-32 | the first measurement becomes the estimate; later ones move it so that (x' - x)(p + q + r) = (p + q)(m - x) and leave the variance p'(p + q + r) = (p + q)r |
| `Kalman.OnlyUpdateCorrects` | cpp/src/arc_severity.cpp:19-32 | and no other filter satisfies those equations |
| `Kalman.StepByVariance` | cpp/src/arc_severity.cpp:27-29 | the step of the estimate is measured by the variance it leaves: (x' - x) r = p' (m - x) |
| `Kalman.GainBounds` | cpp/src/arc_severity.cpp:25-29 | every gain lies strictly between q/(q+r) and 1, whatever is measured |
| `Kalman.ErrorShrinks` | cpp/src/arc_severity.cpp:25-28 | the error against a constant input shrinks by a factor of at most r/(q+r) per step |
| `Kalman.VarianceShrinks` | cpp/src/arc_severity.cpp:25-29 | the distance of the variance to a solution of s*s + q*s = q*r shrinks by a factor of at most (r/(q+r))^2 per step |
| `Kalman.ErrorShrinksOverRuns` | cpp/src/arc_severity.cpp:19-32 | over n measurements of a constant input the error shrinks by a factor of at most (r/(q+r))^n |
| `Kalman.VarianceShrinksOverRuns` | cpp/src/arc_severity.cpp:19-32 | over any n measurements the distance of the variance to its steady value shrinks by a factor of at most (r/(q+r))^(2n) |
| `Kalman.UpdateMonotone` | cpp/src/arc_severity.cpp:19-32 | larger measurements on a larger estimate give a larger one; the variance ignores both |
| `Kalman.StaysSound` | cpp/src/arc_severity.cpp:25-29 | the variance stays positive |
| `Kalman.KalmanFilter1D.constructor` | cpp/src/arc_severity.cpp:6-11 | estimate 0, variance 1, not initialised |
| `Kalman.KalmanFilter1D.Init` | cpp/src/arc_severity.cpp:13-17 | the first measurement becomes the estimate |
| `Kalman.KalmanFilter1D.UpdateWith` | cpp/src/arc_severity.cpp:19-32 | the fields after an update, which satisfy the equations of `Kalman.UpdateCorrects`, and the returned estimate |
| `EnergyEstimator.ComputeInstantEnergy` | cpp/src/arc_severity.cpp:229-258 | the strided form computes the specified energy, for any box |
| `EnergyEstimator.ComputeInstantEnergyGpu` | cpp/src/arc_severity.cpp:260-296 | the packed form computes the same energy, for any box |
| `EnergyEstimator.FlatSumIsRegionSum` | cpp/src/arc_severity.cpp:277-288 | packing rows and summing them flat gives the nested sum |
| `EnergyEstimator.PackRows` | cpp/src/arc_severity.cpp:275-281 | the copies fill the buffer exactly, row after row, all within bounds |
| `EnergyEstimator.SumFlat` | cpp/src/arc_severity.cpp:284-288 | the flat loop sums the buffer |
| `EnergyEstimator.SumStrided` | cpp/src/arc_severity.cpp:240-249 | the nested loops sum the first channel of the region and count its pixels, all reads in bounds |
| `EnergyEstimator.EnergyMonotone` | cpp/src/arc_severity.cpp:229-296 | the energy is at least 0, at most the clipped area, and grows with every pixel |
| `EnergyEstimator.EnergyWithinImage` | cpp/src/arc_severity.cpp:229-296 | no box holds more energy than the image has pixels |
| `EnergyLaw.EnergyObeys` | cpp/src/arc_severity.cpp:229-296 | from the whole image and the real corners: if the box covers n > 0 pixels whose brightness sums to s, the energy E satisfies E * n * 65025 = s * s, and with n = 0 it is 0 |
| `EnergyLaw.WindowCounts` | cpp/src/arc_severity.cpp:232-249 | the clipped region holds exactly the pixels the box covers, and its sum is theirs |
| `EnergyLaw.WithinIsClipped` | cpp/src/arc_severity.cpp:232-235 | a whole pixel is covered, its far edge behind the near side of the box and not behind the far side, exactly if it lies in the truncated and clipped interval |
| `ContextPool.AlwaysPartitioned` | cpp/src/trt_engine.cpp:173-213 | over any interleaving of infer calls no context is lost, duplicated or held by two callers |
| `ContextPool.FullWhenIdle` | cpp/src/trt_engine.cpp:199-213 | when no call is running the deque holds every context exactly once |
| `ContextPool.FirstInFirstOut` | cpp/src/trt_engine.cpp:173-197 | over any interleaving, the contexts at first in the deque followed by those given back are, in that order, those handed out followed by those in the deque |
| `ContextPool.StepPartitioned` | cpp/src/trt_engine.cpp:173-197 | one acquire, timeout or release keeps the partition |
| `ContextPool.CreatedPartitioned` | cpp/src/trt_engine.cpp:129-155 | a created pool has as many contexts as asked for, or one if none were, all of them free, once each, and no call is running |

## Left out

- Null arguments: the answer -1 of the queue functions, which have nothing to refuse here.
- Shared-memory mapping, operating-system handles, and a second create on a ring in use.
- Weak memory ordering of the atomics, and more than one producer or consumer on one ring.
- CUDA kernels and network inference, whose answers are arbitrary boxes; padding the regions of interest
  and clipping them to the image (cpp/src/arc_detector.cpp:216-221).
- Floating-point rounding, not-a-number, 32-bit and 64-bit overflow.
- ShmFrameQueue.Queue.Push: is one whole call; calls interleaved step by step are `FrameRingRuns`.
- FrameSync.FrameSync.EvictOld: takes a limit that is not negative; with a negative one the loop of the
  code never ends, which is `FrameSyncSpec.EvictionEndsIff`, and only pushes need the restriction.
- FrameSync.FrameSync.PushVisible: a frame is a value, so two frames equal in every field are not told
  apart; the time of arrival is not modelled, and the callback is the sequence of what it has received.
- MultiStreamSync.MultiStreamSync.GetOrCreateSync: the locks are not modelled; each call is atomic, as
  under the per-stream mutex.
- Kalman.KalmanFilter1D.UpdateWith: an initialised filter whose variance and noises sum to zero is left
  out, where the code divides by zero; tracks hold the value of a filter, as they embed it in the code.
- ArcLifecycleTracker.ArcLifecycleTracker.UpdateTracks: needs an energy for every detection, which the
  code indexes without looking; tracks are values in a sequence field that is reassigned, so aliasing of
  a returned track is not modelled, and a track with the flag `active` off never starts a call.
- ArcLifecycleTracker.ArcLifecycleTracker.ExpireOldTracks: a negative max_tracks never trims, as the
  unsigned comparison of the code never does; trimmed tracks are remembered for the proofs only.
- EnergyEstimator.ComputeInstantEnergyGpu: the image has one byte per pixel and a buffer of exactly its
  size; the copies to the host succeed.
- Nms.SortByConfidence: stands for the library sort, whose order of equal confidences is not fixed; only
  descending order and permutation are used.
- ContextPool.AlwaysPartitioned: waiting is a step that becomes possible; fairness, the 200 ms limit and
  unload during a call are not modelled.
- The ZMQ sockets and wire format, the stream loop, decoder, reconnection, configuration, alarm file and
  result channels, which pass data on or keep bounded lists.
- Values the code computes and never uses: the map from track id to update, the seconds of a track, the
  flags of matched tracks, the `dropOld` setting.
