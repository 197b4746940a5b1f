/**
 The shared-memory frame ring of one camera: the memory both sides see, and the bodies of
 push, push_gpu, pop and pop_batch cut into their atomic steps. One producer and one consumer
 interleave these steps arbitrarily, under sequential consistency.
 */
module FrameRing {
  import opened Common

  newtype byte = x: int | 0 <= x < 256

  const MAX_FRAME_SIZE: nat := 1920 * 1080 * 3

  datatype FrameType = VisibleLight | Ultraviolet

  datatype Header = Header(ptsNs: int, width: nat, height: nat, channels: nat,
                           kind: FrameType, streamIndex: int, timestampWall: int)

  datatype SlotState = Free | Writing | Ready | Reading

  datatype Slot = Slot(header: Header, data: seq<byte>, state: SlotState)

  datatype Shared = Shared(writeSeq: int, readSeq: int, slots: seq<Slot>)

  /** What one push hands over and one pop returns. */
  datatype Frame = Frame(header: Header, bytes: seq<byte>)

  /** The arguments of one push; `gpu` selects push_gpu, whose copy may fail. */
  datatype Job = Job(header: Header, data: seq<byte>, gpu: bool) {
    /** The caller owns as many bytes as the copy reads. */
    predicate Valid() {
      FrameSize(header) <= |data|
    }

    /** The frame this call offers when its wall clock reads `wall`. */
    function Sent(wall: int): Frame
      requires Valid()
    {
      Frame(header.(timestampWall := wall), data[..FrameSize(header)])
    }
  }

  /** The frame is this header, and as many bytes of the data as its dimensions say, up to a full-size frame. */
  predicate IsCopy(frame: Frame, header: Header, data: seq<byte>) {
    var n := header.width * header.height * header.channels;
    var size := if n < 1920 * 1080 * 3 then n else 1920 * 1080 * 3;
    frame.header == header && size <= |data| && |frame.bytes| == size && frame.bytes == data[..size]
  }

  /** The frame is what the call offered: every field of its header but the wall time, and its bytes. */
  predicate Carries(frame: Frame, job: Job) {
    IsCopy(frame, job.header.(timestampWall := frame.header.timestampWall), job.data)
  }

  datatype Call = Pop | PopBatch(max: int)

  function FrameSize(h: Header): nat {
    Min(h.width * h.height * h.channels, MAX_FRAME_SIZE)
  }

  // ---------- Program counters ----------

  /** Where the producer stands; each name is the step it takes next. */
  datatype Producer =
    | Idle
    | LoadRead(job: Job, w: int)
    | Claim(job: Job, w: int)
    | StoreHeader(job: Job, w: int)
    | Stamp(job: Job, w: int)
    | CopyIn(job: Job, w: int, wall: int, copied: nat)
    | Abort(job: Job, w: int)
    | Publish(job: Job, w: int, wall: int)
    | Advance(job: Job, w: int, wall: int)

  /** Where the consumer stands; `out` holds the frames already copied out by this call. */
  datatype Consumer =
    | Resting
    | LoadWrite(call: Call, r: int)
    | Take(call: Call, r: int, count: int, out: seq<Frame>)
    | ReadHeader(call: Call, r: int, count: int, out: seq<Frame>)
    | CopyOut(call: Call, r: int, count: int, out: seq<Frame>, header: Header, bytes: seq<byte>)
    | Release(call: Call, r: int, count: int, out: seq<Frame>, frame: Frame)
    | Retire(call: Call, r: int, count: int, out: seq<Frame>)

  datatype State = State(shared: Shared, producer: Producer, consumer: Consumer)

  /** What a step reports: the answer of a call, or the size of the batch it committed to. */
  datatype Event =
    | Silent
    | Pushed(frame: Frame)                // push returned 0
    | Full                                // push returned -2
    | PushCollided                        // push returned -3
    | CopyFailed                          // push_gpu returned -4
    | Empty                               // pop returned -2
    | PopCollided                         // pop returned -3, or pop_batch left its loop early
    | Promised(limit: int, count: nat)    // the write_seq load fixed how many frames to deliver
    | Popped(frames: seq<Frame>)          // pop returned 0, or pop_batch returned

  /**
   One step of the scheduler. A begin action starts a call with its first load; a further action
   takes the next step of that side. `wall` is the clock value stamped, `chunk` the number of
   bytes one copy step moves beyond the first, `fails` the verdict of the device copy.
   */
  datatype Action =
    | BeginPush(job: Job)
    | Produce(wall: int, chunk: nat, fails: bool)
    | BeginPop(call: Call)
    | Consume(chunk: nat)

  // ---------- Steps ----------

  function At(sh: Shared, j: int): Slot
    requires |sh.slots| > 0
  {
    sh.slots[j % |sh.slots|]
  }

  function Put(sh: Shared, j: int, slot: Slot): Shared
    requires |sh.slots| > 0
  {
    sh.(slots := sh.slots[j % |sh.slots| := slot])
  }

  /** memcpy of bytes from..to of `src` over the same positions of `dst`. */
  function Overwrite(dst: seq<byte>, src: seq<byte>, from: nat, to: nat): seq<byte>
    requires from <= to <= |src| && to <= |dst|
  {
    dst[..from] + src[from..to] + dst[to..]
  }

  predicate Shaped(sh: Shared) {
    && |sh.slots| > 0
    && forall k | 0 <= k < |sh.slots| :: |sh.slots[k].data| == MAX_FRAME_SIZE
  }

  function ProducerStep(sh: Shared, p: Producer, wall: int, chunk: nat, fails: bool)
    : (Shared, Producer, Event)
    requires Shaped(sh) && (!p.Idle? ==> p.job.Valid())
  {
    match p
    case Idle => (sh, p, Silent)
    case LoadRead(job, w) =>
      if w - sh.readSeq >= |sh.slots| then (sh, Idle, Full) else (sh, Claim(job, w), Silent)
    case Claim(job, w) =>
      if At(sh, w).state == Free then
        (Put(sh, w, At(sh, w).(state := Writing)), StoreHeader(job, w), Silent)
      else (sh, Idle, PushCollided)
    case StoreHeader(job, w) =>
      (Put(sh, w, At(sh, w).(header := job.header)), Stamp(job, w), Silent)
    case Stamp(job, w) =>
      (Put(sh, w, At(sh, w).(header := At(sh, w).header.(timestampWall := wall))),
       CopyIn(job, w, wall, 0), Silent)
    case CopyIn(job, w, stamped, copied) =>
      if job.gpu && fails then (sh, Abort(job, w), Silent)
      else if copied >= FrameSize(job.header) then (sh, Publish(job, w, stamped), Silent)
      else
        var to := Min(copied + 1 + chunk, FrameSize(job.header));
        (Put(sh, w, At(sh, w).(data := Overwrite(At(sh, w).data, job.data, copied, to))),
         CopyIn(job, w, stamped, to), Silent)
    case Abort(job, w) =>
      (Put(sh, w, At(sh, w).(state := Free)), Idle, CopyFailed)
    case Publish(job, w, stamped) =>
      (Put(sh, w, At(sh, w).(state := Ready)), Advance(job, w, stamped), Silent)
    case Advance(job, w, stamped) =>
      (sh.(writeSeq := w + 1), Idle, Pushed(job.Sent(stamped)))
  }

  /** The loop test of pop_batch; pop runs its body once. */
  function LoopTest(call: Call, r: int, count: int, out: seq<Frame>): Consumer {
    if |out| < count then Take(call, r, count, out) else Retire(call, r, count, out)
  }

  function ConsumerStep(sh: Shared, c: Consumer, chunk: nat): (Shared, Consumer, Event)
    requires Shaped(sh)
  {
    match c
    case Resting => (sh, c, Silent)
    case LoadWrite(Pop, r) =>
      if r >= sh.writeSeq then (sh, Resting, Empty) else (sh, Take(Pop, r, 1, []), Promised(1, 1))
    case LoadWrite(PopBatch(max), r) =>
      var count := Min(sh.writeSeq - r, max);
      (sh, LoopTest(PopBatch(max), r, count, []), Promised(max, Max(count, 0)))
    case Take(call, r, count, out) =>
      var j := r + |out|;
      if At(sh, j).state == Ready then
        (Put(sh, j, At(sh, j).(state := Reading)), ReadHeader(call, r, count, out), Silent)
      else if call.Pop? then (sh, Resting, PopCollided)
      else (sh, Retire(call, r, count, out), PopCollided)
    case ReadHeader(call, r, count, out) =>
      (sh, CopyOut(call, r, count, out, At(sh, r + |out|).header, []), Silent)
    case CopyOut(call, r, count, out, header, bytes) =>
      var slot := At(sh, r + |out|);
      if |bytes| >= FrameSize(slot.header) then
        (sh, Release(call, r, count, out, Frame(header, bytes)), Silent)
      else
        var to := Min(|bytes| + 1 + chunk, FrameSize(slot.header));
        (sh, CopyOut(call, r, count, out, header, bytes + slot.data[|bytes|..to]), Silent)
    case Release(call, r, count, out, frame) =>
      var j := r + |out|;
      (Put(sh, j, At(sh, j).(state := Free)), LoopTest(call, r, count, out + [frame]), Silent)
    case Retire(call, r, count, out) =>
      (sh.(readSeq := r + |out|), Resting, Popped(out))
  }

  /** A step the scheduler may pick: begin actions only start when that side is at rest. */
  predicate Enabled(s: State, a: Action) {
    match a
    case BeginPush(job) => s.producer.Idle? && job.Valid()
    case Produce(_, _, _) => !s.producer.Idle?
    case BeginPop(_) => s.consumer.Resting?
    case Consume(_) => !s.consumer.Resting?
  }

  predicate WellFormed(s: State) {
    Shaped(s.shared) && (!s.producer.Idle? ==> s.producer.job.Valid())
  }

  function Step(s: State, a: Action): (State, Event)
    requires WellFormed(s) && Enabled(s, a)
  {
    match a
    case BeginPush(job) => (s.(producer := LoadRead(job, s.shared.writeSeq)), Silent)
    case Produce(wall, chunk, fails) =>
      var (sh, p, e) := ProducerStep(s.shared, s.producer, wall, chunk, fails);
      (State(sh, p, s.consumer), e)
    case BeginPop(call) => (s.(consumer := LoadWrite(call, s.shared.readSeq)), Silent)
    case Consume(chunk) =>
      var (sh, c, e) := ConsumerStep(s.shared, s.consumer, chunk);
      (State(sh, s.producer, c), e)
  }

  /** The state shm_queue_create leaves behind: sequences zero, every slot free. */
  predicate Created(s: State) {
    && Shaped(s.shared)
    && s.shared.writeSeq == s.shared.readSeq == 0
    && (forall k | 0 <= k < |s.shared.slots| :: s.shared.slots[k].state == Free)
    && s.producer == Idle && s.consumer == Resting
  }
}
