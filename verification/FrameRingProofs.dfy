/**
 Every interleaving of the ring's steps keeps one invariant and refines a bounded FIFO.
 */
module FrameRingProofs {
  import opened Common
  import opened FrameRing

  // ---------- The specification: a bounded FIFO ----------

  /** `promised` is the size the running pop has committed to. */
  datatype Fifo = Fifo(frames: seq<Frame>, promised: nat)

  /** The effect and the legality of one event on a FIFO of capacity `cap`. */
  ghost predicate FifoNext(cap: nat, q: Fifo, e: Event, q': Fifo) {
    match e
    case Silent => q' == q
    case Pushed(frame) => |q.frames| < cap && q' == q.(frames := q.frames + [frame])
    case Full => |q.frames| == cap && q' == q
    case PushCollided => false
    case CopyFailed => q' == q
    case Empty => q.frames == [] && q' == q
    case PopCollided => false
    case Promised(limit, count) =>
      count == Max(0, Min(|q.frames|, limit)) && q' == q.(promised := count)
    case Popped(frames) =>
      && |frames| == q.promised <= |q.frames|
      && frames == q.frames[..q.promised]
      && q' == Fifo(q.frames[q.promised..], 0)
  }

  /** The frame a slot holds: its header and as many bytes as the header says. */
  function Stored(slot: Slot): Frame
    requires |slot.data| == MAX_FRAME_SIZE
  {
    Frame(slot.header, slot.data[..FrameSize(slot.header)])
  }

  /** The frames numbered readSeq..writeSeq-1, whatever their slots' flags say. */
  function Contents(sh: Shared): (frames: seq<Frame>)
    requires Shaped(sh) && sh.readSeq <= sh.writeSeq
  {
    seq(sh.writeSeq - sh.readSeq, k requires 0 <= k < sh.writeSeq - sh.readSeq => Stored(At(sh, sh.readSeq + k)))
  }

  function Promise(c: Consumer): nat {
    if c.Resting? || c.LoadWrite? then 0 else Max(c.count, 0)
  }

  function Abs(s: State): Fifo
    requires Shaped(s.shared) && s.shared.readSeq <= s.shared.writeSeq
  {
    Fifo(Contents(s.shared), Promise(s.consumer))
  }

  // ---------- The invariant ----------

  /** How many slots the running pop has already flagged FREE without moving readSeq. */
  function Freed(c: Consumer): nat {
    if c.Resting? || c.LoadWrite? then 0 else |c.out|
  }

  predicate Holding(c: Consumer) {
    c.ReadHeader? || c.CopyOut? || c.Release?
  }

  /** The flag the slot numbered j must carry, from both program counters. */
  function Expected(s: State, j: int): SlotState {
    var sh := s.shared;
    if j < sh.writeSeq then
      if j < sh.readSeq + Freed(s.consumer) then Free
      else if j == sh.readSeq + Freed(s.consumer) && Holding(s.consumer) then Reading
      else Ready
    else if j > sh.writeSeq || s.producer.Idle? || s.producer.LoadRead? || s.producer.Claim? then Free
    else if s.producer.Advance? then Ready
    else Writing
  }

  ghost predicate FlagsOk(s: State)
    requires Shaped(s.shared)
  {
    forall j {:trigger At(s.shared, j)} | s.shared.readSeq <= j < s.shared.readSeq + |s.shared.slots| ::
      At(s.shared, j).state == Expected(s, j)
  }

  ghost predicate ProducerOk(sh: Shared, p: Producer)
    requires Shaped(sh)
  {
    !p.Idle? ==>
      && p.w == sh.writeSeq
      && p.job.Valid()
      && (!p.LoadRead? ==> sh.writeSeq < sh.readSeq + |sh.slots|)
      && var slot := At(sh, p.w);
      && (p.Stamp? ==> slot.header == p.job.header)
      && (p.CopyIn? ==>
        && p.copied <= FrameSize(p.job.header)
        && slot.header == p.job.header.(timestampWall := p.wall)
        && slot.data[..p.copied] == p.job.data[..p.copied])
      && (p.Publish? || p.Advance? ==> Stored(slot) == p.job.Sent(p.wall))
  }

  ghost predicate ConsumerOk(sh: Shared, c: Consumer)
    requires Shaped(sh)
  {
    !c.Resting? ==>
      && c.r == sh.readSeq
      && (!c.LoadWrite? ==>
        && (c.call.Pop? ==> c.count == 1)
        && c.r + c.count <= sh.writeSeq
        && |c.out| <= Max(c.count, 0)
        && (c.Retire? <==> |c.out| == Max(c.count, 0))
        && (forall k {:trigger c.out[k]} | 0 <= k < |c.out| :: c.out[k] == Stored(At(sh, c.r + k)))
        && var slot := At(sh, c.r + |c.out|);
        && (c.CopyOut? ==>
          && c.header == slot.header
          && |c.bytes| <= FrameSize(c.header)
          && c.bytes == slot.data[..|c.bytes|])
        && (c.Release? ==> c.frame == Stored(slot)))
  }

  ghost predicate Bounded(sh: Shared) {
    Shaped(sh) && 0 <= sh.readSeq <= sh.writeSeq <= sh.readSeq + |sh.slots|
  }

  ghost predicate Inv(s: State) {
    && Bounded(s.shared)
    && FlagsOk(s)
    && ProducerOk(s.shared, s.producer)
    && ConsumerOk(s.shared, s.consumer)
  }

  // ---------- Slot arithmetic ----------

  lemma SmallMultiple(n: int, d: int)
    requires -n < n * d < n
    ensures d == 0
  {
  }

  /** Two numbers less than a capacity apart name different slots. */
  lemma DistinctSlots(i: int, j: int, n: int)
    requires 0 < n && i < j < i + n
    ensures i % n != j % n
  {
    if i % n == j % n {
      assert j - i == n * (j / n - i / n);
      SmallMultiple(n, j / n - i / n);
    }
  }

  /** A number a whole capacity further on names the same slot. */
  lemma SameSlot(j: int, n: int)
    requires 0 < n
    ensures (j + n) % n == j % n
  {
    var d := j / n + 1 - (j + n) / n;
    assert j == n * (j / n) + j % n;
    assert j + n == n * ((j + n) / n) + (j + n) % n;
    assert (j + n) % n - j % n == n * d;
    SmallMultiple(n, d);
  }

  /** A store to slot j0 changes no other slot of a window around it. */
  lemma PutFrame(sh: Shared, j0: int, slot: Slot)
    requires Shaped(sh) && |slot.data| == MAX_FRAME_SIZE
    ensures Shaped(Put(sh, j0, slot))
    ensures At(Put(sh, j0, slot), j0) == slot
    ensures forall j {:trigger At(sh, j)} {:trigger At(Put(sh, j0, slot), j)} ::
      j0 - |sh.slots| < j < j0 + |sh.slots| && j != j0 ==> At(Put(sh, j0, slot), j) == At(sh, j)
  {
    var n := |sh.slots|;
    forall j | j0 - n < j < j0 + n && j != j0
      ensures j % n != j0 % n
    {
      if j < j0 { DistinctSlots(j, j0, n); } else { DistinctSlots(j0, j, n); }
    }
  }

  // ---------- Every step keeps the invariant and refines the FIFO ----------

  ghost predicate Refines(s: State, s': State, e: Event) {
    && Inv(s) && Inv(s')
    && |s'.shared.slots| == |s.shared.slots|
    && FifoNext(|s.shared.slots|, Abs(s), e, Abs(s'))
  }

  /** sh' differs from sh at most in the slot numbered j0, and not in its counters. */
  ghost predicate SameBut(sh: Shared, sh': Shared, j0: int)
    requires Shaped(sh) && Shaped(sh')
  {
    && sh'.readSeq == sh.readSeq && sh'.writeSeq == sh.writeSeq && |sh'.slots| == |sh.slots|
    && forall j {:trigger At(sh', j)} | sh.readSeq <= j < sh.readSeq + |sh.slots| && j != j0 :: At(sh', j) == At(sh, j)
  }

  lemma PutElsewhere(sh: Shared, j0: int, slot: Slot)
    requires Shaped(sh) && |slot.data| == MAX_FRAME_SIZE && sh.readSeq <= j0 < sh.readSeq + |sh.slots|
    ensures var sh' := Put(sh, j0, slot);
            Shaped(sh') && SameBut(sh, sh', j0) && At(sh', j0) == slot
  {
    PutFrame(sh, j0, slot);
  }

  /** The flags after a store to slot j0. */
  lemma FlagsKept(s: State, s': State, j0: int)
    requires Shaped(s.shared) && Shaped(s'.shared) && FlagsOk(s) && SameBut(s.shared, s'.shared, j0)
    requires At(s'.shared, j0).state == Expected(s', j0)
    requires forall j | s.shared.readSeq <= j < s.shared.readSeq + |s.shared.slots| && j != j0 ::
               Expected(s', j) == Expected(s, j)
    ensures FlagsOk(s')
  {
    forall j | s'.shared.readSeq <= j < s'.shared.readSeq + |s'.shared.slots|
      ensures At(s'.shared, j).state == Expected(s', j)
    {
      if j != j0 {
        assert At(s'.shared, j) == At(s.shared, j);
        assert At(s.shared, j).state == Expected(s, j);
      }
    }
  }

  lemma ContentsKept(sh: Shared, sh': Shared, j0: int)
    requires Bounded(sh) && Shaped(sh') && SameBut(sh, sh', j0)
    requires j0 < sh.writeSeq ==> Stored(At(sh', j0)) == Stored(At(sh, j0))
    ensures Contents(sh') == Contents(sh)
  {
    forall j | sh.readSeq <= j < sh.writeSeq
      ensures Stored(At(sh', j)) == Stored(At(sh, j))
    {
      assert j != j0 ==> At(sh', j) == At(sh, j);
    }
    SameContents(sh, sh');
  }

  /** A flag or payload store to slot j0 that leaves queued frames alone. */
  lemma StoreKeeps(s: State, s': State, j0: int, slot: Slot)
    requires Bounded(s.shared) && FlagsOk(s) && |slot.data| == MAX_FRAME_SIZE
    requires s.shared.readSeq <= j0 < s.shared.readSeq + |s.shared.slots|
    requires s'.shared == Put(s.shared, j0, slot)
    requires slot.state == Expected(s', j0)
    requires forall j | s.shared.readSeq <= j < s.shared.readSeq + |s.shared.slots| && j != j0 ::
               Expected(s', j) == Expected(s, j)
    requires j0 < s.shared.writeSeq ==> Stored(slot) == Stored(At(s.shared, j0))
    ensures Shaped(s'.shared) && SameBut(s.shared, s'.shared, j0) && At(s'.shared, j0) == slot
    ensures Bounded(s'.shared) && FlagsOk(s') && Contents(s'.shared) == Contents(s.shared)
  {
    PutElsewhere(s.shared, j0, slot);
    FlagsKept(s, s', j0);
    ContentsKept(s.shared, s'.shared, j0);
  }

  lemma SameContents(sh: Shared, sh': Shared)
    requires Shaped(sh) && Shaped(sh') && sh.readSeq <= sh.writeSeq
    requires sh'.readSeq == sh.readSeq && sh'.writeSeq == sh.writeSeq
    requires forall j {:trigger At(sh', j)} | sh.readSeq <= j < sh.writeSeq :: Stored(At(sh', j)) == Stored(At(sh, j))
    ensures Contents(sh') == Contents(sh)
  {
  }

  /** Flags depend on the two program counters only through Freed, Holding, and the producer's stage. */
  lemma QuietFlags(s: State, s': State)
    requires Shaped(s.shared) && FlagsOk(s) && s'.shared == s.shared
    requires forall j | s.shared.readSeq <= j < s.shared.readSeq + |s.shared.slots| :: Expected(s', j) == Expected(s, j)
    ensures FlagsOk(s')
  {
    forall j | s.shared.readSeq <= j < s.shared.readSeq + |s.shared.slots|
      ensures At(s'.shared, j).state == Expected(s', j)
    {
      assert At(s.shared, j).state == Expected(s, j);
      assert Expected(s', j) == Expected(s, j);
    }
  }

  /** What a step that stores nothing must keep. */
  lemma QuietStep(s: State, s': State)
    requires Inv(s) && s'.shared == s.shared
    requires forall j | s.shared.readSeq <= j < s.shared.readSeq + |s.shared.slots| :: Expected(s', j) == Expected(s, j)
    requires ProducerOk(s.shared, s'.producer) && ConsumerOk(s.shared, s'.consumer)
    ensures Inv(s') && Contents(s'.shared) == Contents(s.shared)
  {
    QuietFlags(s, s');
  }

  /** A store at write_seq is not seen by the consumer. */
  lemma ConsumerUntouched(sh: Shared, sh': Shared, c: Consumer)
    requires Bounded(sh) && Shaped(sh') && sh.writeSeq < sh.readSeq + |sh.slots| && SameBut(sh, sh', sh.writeSeq)
    requires ConsumerOk(sh, c)
    ensures ConsumerOk(sh', c)
  {
    if !c.Resting? && !c.LoadWrite? {
      assert forall k {:trigger At(sh', c.r + k)} | 0 <= k < c.count :: At(sh', c.r + k) == At(sh, c.r + k);
      assert |c.out| < c.count ==> At(sh', c.r + |c.out|) == At(sh, c.r + |c.out|);
    }
  }

  /** A store into the claimed slot does not reach the frames the consumer sees. */
  lemma ProducerStore(s: State, s': State, slot: Slot)
    requires Inv(s) && !s.producer.Idle? && !s.producer.LoadRead? && |slot.data| == MAX_FRAME_SIZE
    requires s'.shared == Put(s.shared, s.producer.w, slot) && s'.consumer == s.consumer
    requires slot.state == Expected(s', s.producer.w)
    requires Shaped(s'.shared) && At(s'.shared, s.producer.w) == slot ==> ProducerOk(s'.shared, s'.producer)
    ensures Inv(s') && Contents(s'.shared) == Contents(s.shared)
  {
    StoreKeeps(s, s', s.producer.w, slot);
    ConsumerUntouched(s.shared, s'.shared, s.consumer);
  }

  /** The producer's CAS finds FREE. */
  lemma ClaimRefines(s: State, wall: int, chunk: nat, fails: bool)
    requires Inv(s) && s.producer.Claim?
    ensures var (s', e) := Step(s, Produce(wall, chunk, fails)); Refines(s, s', e)
  {
    var (s', e) := Step(s, Produce(wall, chunk, fails));
    var w := s.producer.w;
    var slot := At(s.shared, w);
    assert slot.state == Expected(s, w);
    ProducerStore(s, s', slot.(state := Writing));
  }

  /** The producer's stores to the header of the slot it has claimed. */
  lemma HeaderStoreRefines(s: State, wall: int, chunk: nat, fails: bool)
    requires Inv(s) && (s.producer.StoreHeader? || s.producer.Stamp?)
    ensures var (s', e) := Step(s, Produce(wall, chunk, fails)); Refines(s, s', e)
  {
    var (s', e) := Step(s, Produce(wall, chunk, fails));
    var w, job := s.producer.w, s.producer.job;
    var slot := At(s.shared, w);
    assert slot.state == Expected(s, w);
    ProducerStore(s, s',
                  slot.(header := if s.producer.Stamp? then slot.header.(timestampWall := wall) else job.header));
  }

  /** The producer gives up its claim: READY after a finished copy, FREE after a failed one. */
  lemma UnclaimRefines(s: State, wall: int, chunk: nat, fails: bool)
    requires Inv(s) && (s.producer.Abort? || s.producer.Publish?)
    ensures var (s', e) := Step(s, Produce(wall, chunk, fails)); Refines(s, s', e)
  {
    var (s', e) := Step(s, Produce(wall, chunk, fails));
    var slot := At(s.shared, s.producer.w);
    ProducerStore(s, s', slot.(state := if s.producer.Abort? then Free else Ready));
  }

  /** One chunk of the producer's memcpy. */
  lemma CopyInRefines(s: State, wall: int, chunk: nat, fails: bool)
    requires Inv(s) && s.producer.CopyIn?
    ensures var (s', e) := Step(s, Produce(wall, chunk, fails)); Refines(s, s', e)
  {
    var CopyIn(job, w, stamped, copied) := s.producer;
    var (s', e) := Step(s, Produce(wall, chunk, fails));
    var was := At(s.shared, w);
    if s'.producer.CopyIn? {
      assert was.state == Expected(s, w);
      var to := s'.producer.copied;
      OverwriteExtends(was.data, job.data, copied, to);
      ProducerStore(s, s', was.(data := Overwrite(was.data, job.data, copied, to)));
    } else {
      assert s'.shared == s.shared;
    }
  }

  lemma OverwriteExtends(dst: seq<byte>, src: seq<byte>, from: nat, to: nat)
    requires from <= to <= |src| && to <= |dst| && dst[..from] == src[..from]
    ensures |Overwrite(dst, src, from, to)| == |dst|
    ensures Overwrite(dst, src, from, to)[..to] == src[..to]
  {
  }

  lemma ContentsGrow(sh: Shared)
    requires Bounded(sh) && sh.writeSeq < sh.readSeq + |sh.slots|
    ensures var sh' := sh.(writeSeq := sh.writeSeq + 1);
            Bounded(sh') && Contents(sh') == Contents(sh) + [Stored(At(sh, sh.writeSeq))]
  {
    var sh' := sh.(writeSeq := sh.writeSeq + 1);
    assert At(sh', sh.writeSeq) == At(sh, sh.writeSeq);
    forall k | 0 <= k < sh.writeSeq - sh.readSeq
      ensures Contents(sh')[k] == Contents(sh)[k]
    {
      assert At(sh', sh.readSeq + k) == At(sh, sh.readSeq + k);
    }
  }

  /** The flag of the published slot is already READY. */
  lemma AdvancedFlags(s: State, s': State)
    requires Bounded(s.shared) && FlagsOk(s) && s.producer.Advance? && s.producer.w == s.shared.writeSeq
    requires s.shared.writeSeq < s.shared.readSeq + |s.shared.slots|
    requires s.shared.readSeq + Freed(s.consumer) <= s.shared.writeSeq
    requires s.shared.readSeq + Freed(s.consumer) == s.shared.writeSeq ==> !Holding(s.consumer)
    requires s' == State(s.shared.(writeSeq := s.shared.writeSeq + 1), Idle, s.consumer)
    ensures FlagsOk(s')
  {
    forall j | s'.shared.readSeq <= j < s'.shared.readSeq + |s'.shared.slots|
      ensures At(s'.shared, j).state == Expected(s', j)
    {
      assert At(s'.shared, j) == At(s.shared, j);
      assert At(s.shared, j).state == Expected(s, j);
    }
  }

  lemma ConsumerSeesMore(sh: Shared, c: Consumer)
    requires Bounded(sh) && ConsumerOk(sh, c)
    ensures ConsumerOk(sh.(writeSeq := sh.writeSeq + 1), c)
  {
    var sh' := sh.(writeSeq := sh.writeSeq + 1);
    if !c.Resting? && !c.LoadWrite? {
      assert At(sh', c.r + |c.out|) == At(sh, c.r + |c.out|);
      forall k | 0 <= k < |c.out|
        ensures c.out[k] == Stored(At(sh', c.r + k))
      {
        assert At(sh', c.r + k) == At(sh, c.r + k);
      }
    }
  }

  lemma Advanced(s: State, s': State)
    requires Inv(s) && s.producer.Advance?
    requires s' == State(s.shared.(writeSeq := s.producer.w + 1), Idle, s.consumer)
    ensures Bounded(s'.shared) && FlagsOk(s') && ConsumerOk(s'.shared, s'.consumer)
    ensures Contents(s'.shared) == Contents(s.shared) + [s.producer.job.Sent(s.producer.wall)]
    ensures |Contents(s.shared)| < |s.shared.slots|
  {
    AdvancedFlags(s, s');
    ConsumerSeesMore(s.shared, s.consumer);
    ContentsGrow(s.shared);
  }

  /** The store of write_seq appends the frame of the finished call. */
  lemma AdvanceRefines(s: State, wall: int, chunk: nat, fails: bool)
    requires Inv(s) && s.producer.Advance?
    ensures var (s', e) := Step(s, Produce(wall, chunk, fails)); Refines(s, s', e)
  {
    Advanced(s, Step(s, Produce(wall, chunk, fails)).0);
  }

  /** The first load of a call touches no shared memory. */
  lemma BeginRefines(s: State, a: Action)
    requires Inv(s) && Enabled(s, a) && (a.BeginPush? || a.BeginPop?)
    ensures var (s', e) := Step(s, a); Refines(s, s', e)
  {
    QuietStep(s, Step(s, a).0);
  }

  /** The producer's load of read_seq decides full. */
  lemma ReadLoadRefines(s: State, wall: int, chunk: nat, fails: bool)
    requires Inv(s) && s.producer.LoadRead?
    ensures var (s', e) := Step(s, Produce(wall, chunk, fails)); Refines(s, s', e)
  {
    QuietStep(s, Step(s, Produce(wall, chunk, fails)).0);
  }

  /** The consumer's load of write_seq decides empty, or the size of the batch. */
  lemma WriteLoadRefines(s: State, chunk: nat)
    requires Inv(s) && s.consumer.LoadWrite?
    ensures var (s', e) := Step(s, Consume(chunk)); Refines(s, s', e)
  {
    QuietStep(s, Step(s, Consume(chunk)).0);
  }

  /** The frame under the consumer's hands is the oldest undelivered one, and its slot is READY. */
  lemma TakeFindsReady(s: State)
    requires Inv(s) && s.consumer.Take?
    ensures var j0 := s.consumer.r + |s.consumer.out|;
            && At(s.shared, j0).state == Ready && |At(s.shared, j0).data| == MAX_FRAME_SIZE
            && s.shared.readSeq <= j0 < s.shared.writeSeq
  {
    var j0 := s.consumer.r + |s.consumer.out|;
    assert At(s.shared, j0).state == Expected(s, j0);
  }

  /** Frames already delivered stay what they are while another slot changes. */
  lemma DeliveredKept(sh: Shared, sh': Shared, c: Consumer, j0: int)
    requires Bounded(sh) && Shaped(sh') && SameBut(sh, sh', j0) && ConsumerOk(sh, c)
    requires !c.Resting? && !c.LoadWrite? && j0 == c.r + |c.out| < sh.writeSeq
    ensures forall k {:trigger c.out[k]} | 0 <= k < |c.out| :: c.out[k] == Stored(At(sh', c.r + k))
  {
    forall k | 0 <= k < |c.out|
      ensures c.out[k] == Stored(At(sh', c.r + k))
    {
      assert At(sh', c.r + k) == At(sh, c.r + k);
    }
  }

  /** Claiming or handing back slot j0 changes what is expected of no other slot. */
  lemma ConsumerMoves(s: State, s': State, j0: int)
    requires s'.producer == s.producer
    requires s'.shared.readSeq == s.shared.readSeq && s'.shared.writeSeq == s.shared.writeSeq
    requires j0 == s.shared.readSeq + Freed(s.consumer) < s.shared.writeSeq
    requires || (Freed(s'.consumer) == Freed(s.consumer) && Holding(s'.consumer))
             || (Freed(s'.consumer) == Freed(s.consumer) + 1 && !Holding(s'.consumer))
    ensures Expected(s', j0) == if Holding(s'.consumer) then Reading else Free
    ensures forall j | j != j0 :: Expected(s', j) == Expected(s, j)
  {
  }

  /** The consumer's CAS to READING finds READY. */
  lemma TakeRefines(s: State, chunk: nat)
    requires Inv(s) && s.consumer.Take?
    ensures var (s', e) := Step(s, Consume(chunk)); Refines(s, s', e)
  {
    TakeFindsReady(s);
    var Take(call, r, count, out) := s.consumer;
    var slot := At(s.shared, r + |out|).(state := Reading);
    TakenRefines(s, State(Put(s.shared, r + |out|, slot), s.producer, ReadHeader(call, r, count, out)), slot);
  }

  /** Everything but the consumer's own part, after it has stored to slot j0. */
  lemma ConsumerStore(s: State, s': State, j0: int, slot: Slot)
    requires Bounded(s.shared) && FlagsOk(s) && ProducerOk(s.shared, s.producer) && s'.producer == s.producer
    requires j0 == s.shared.readSeq + Freed(s.consumer) < s.shared.writeSeq
    requires || (Freed(s'.consumer) == Freed(s.consumer) && Holding(s'.consumer))
             || (Freed(s'.consumer) == Freed(s.consumer) + 1 && !Holding(s'.consumer))
    requires |slot.data| == MAX_FRAME_SIZE && Stored(slot) == Stored(At(s.shared, j0))
    requires slot.state == if Holding(s'.consumer) then Reading else Free
    requires s'.shared == Put(s.shared, j0, slot)
    ensures Shaped(s'.shared) && SameBut(s.shared, s'.shared, j0) && At(s'.shared, j0) == slot
    ensures Bounded(s'.shared) && FlagsOk(s') && ProducerOk(s'.shared, s'.producer)
    ensures Contents(s'.shared) == Contents(s.shared)
  {
    ConsumerMoves(s, s', j0);
    StoreKeeps(s, s', j0, slot);
    ProducerSlotKept(s.shared, s'.shared, s.producer, j0);
  }

  lemma SilentStep(s: State, s': State)
    requires Inv(s) && Bounded(s'.shared) && |s'.shared.slots| == |s.shared.slots|
    requires FlagsOk(s') && ProducerOk(s'.shared, s'.producer) && ConsumerOk(s'.shared, s'.consumer)
    requires Contents(s'.shared) == Contents(s.shared) && Promise(s'.consumer) == Promise(s.consumer)
    ensures Refines(s, s', Silent)
  {
  }

  lemma TakenRefines(s: State, s': State, slot: Slot)
    requires Inv(s) && s.consumer.Take?
    requires var j0 := s.consumer.r + |s.consumer.out|;
             && s.shared.readSeq <= j0 < s.shared.writeSeq && slot == At(s.shared, j0).(state := Reading)
             && s'.shared == Put(s.shared, j0, slot)
    requires s'.producer == s.producer
    requires s'.consumer == ReadHeader(s.consumer.call, s.consumer.r, s.consumer.count, s.consumer.out)
    ensures Refines(s, s', Silent)
  {
    var j0 := s.consumer.r + |s.consumer.out|;
    ConsumerStore(s, s', j0, slot);
    DeliveredKept(s.shared, s'.shared, s.consumer, j0);
    TakenConsumer(s.shared, s'.shared, s.consumer);
    SilentStep(s, s');
  }

  lemma TakenConsumer(sh: Shared, sh': Shared, c: Consumer)
    requires Bounded(sh) && Shaped(sh') && c.Take? && ConsumerOk(sh, c) && SameBut(sh, sh', c.r + |c.out|)
    requires forall k {:trigger c.out[k]} | 0 <= k < |c.out| :: c.out[k] == Stored(At(sh', c.r + k))
    ensures ConsumerOk(sh', ReadHeader(c.call, c.r, c.count, c.out))
  {
  }

  /** A claimed slot handed back. */
  lemma ReleaseStored(s: State, s': State)
    requires Inv(s) && s.consumer.Release? && s'.producer == s.producer
    requires var c := s.consumer; var j0 := c.r + |c.out|;
             && s'.shared == Put(s.shared, j0, At(s.shared, j0).(state := Free))
             && s'.consumer == LoopTest(c.call, c.r, c.count, c.out + [c.frame])
    ensures var j0 := s.consumer.r + |s.consumer.out|;
            && Shaped(s'.shared) && SameBut(s.shared, s'.shared, j0)
            && Stored(At(s'.shared, j0)) == Stored(At(s.shared, j0))
    ensures Bounded(s'.shared) && FlagsOk(s') && ProducerOk(s'.shared, s'.producer)
    ensures Contents(s'.shared) == Contents(s.shared) && Promise(s'.consumer) == Promise(s.consumer)
  {
    var c := s.consumer;
    var j0 := c.r + |c.out|;
    LoopTestCounts(c.call, c.r, c.count, c.out + [c.frame]);
    ConsumerStore(s, s', j0, At(s.shared, j0).(state := Free));
  }

  /** The consumer's store of FREE ends one delivery; readSeq has not moved yet. */
  lemma ReleaseRefines(s: State, chunk: nat)
    requires Inv(s) && s.consumer.Release?
    ensures var (s', e) := Step(s, Consume(chunk)); Refines(s, s', e)
  {
    var (s', e) := Step(s, Consume(chunk));
    var c := s.consumer;
    ReleaseStored(s, s');
    DeliveredKept(s.shared, s'.shared, c, c.r + |c.out|);
    ReleasedConsumer(s.shared, s'.shared, c);
    SilentStep(s, s');
  }

  lemma LoopTestCounts(call: Call, r: int, count: int, out: seq<Frame>)
    ensures var c := LoopTest(call, r, count, out);
            Freed(c) == |out| && !Holding(c) && Promise(c) == Max(count, 0)
  {
  }

  /** One more delivered frame, and the loop test after it. */
  lemma ReleasedConsumer(sh: Shared, sh': Shared, c: Consumer)
    requires Bounded(sh) && Shaped(sh') && c.Release? && ConsumerOk(sh, c) && SameBut(sh, sh', c.r + |c.out|)
    requires forall k {:trigger c.out[k]} | 0 <= k < |c.out| :: c.out[k] == Stored(At(sh', c.r + k))
    requires Stored(At(sh', c.r + |c.out|)) == Stored(At(sh, c.r + |c.out|))
    ensures ConsumerOk(sh', LoopTest(c.call, c.r, c.count, c.out + [c.frame]))
  {
  }

  /** A store below write_seq is not seen by the producer. */
  lemma ProducerSlotKept(sh: Shared, sh': Shared, p: Producer, j0: int)
    requires Bounded(sh) && Shaped(sh') && SameBut(sh, sh', j0) && sh.readSeq <= j0 < sh.writeSeq
    requires ProducerOk(sh, p)
    ensures ProducerOk(sh', p)
  {
    if !p.Idle? && !p.LoadRead? {
      assert At(sh', p.w) == At(sh, p.w);
    }
  }

  lemma ReadHeaderRefines(s: State, chunk: nat)
    requires Inv(s) && s.consumer.ReadHeader?
    ensures var (s', e) := Step(s, Consume(chunk)); Refines(s, s', e)
  {
    var (s', e) := Step(s, Consume(chunk));
    assert ConsumerOk(s.shared, s'.consumer);
    QuietStep(s, s');
  }

  /** One chunk of the consumer's memcpy out of the slot it holds. */
  lemma CopyOutRefines(s: State, chunk: nat)
    requires Inv(s) && s.consumer.CopyOut?
    ensures var (s', e) := Step(s, Consume(chunk)); Refines(s, s', e)
  {
    var (s', e) := Step(s, Consume(chunk));
    CopyOutOk(s.shared, s.consumer, chunk);
    QuietStep(s, s');
  }

  lemma PrefixGrows(data: seq<byte>, from: nat, to: nat)
    requires from <= to <= |data|
    ensures data[..from] + data[from..to] == data[..to]
  {
  }

  lemma CopyOutGoesOn(sh: Shared, c: Consumer, to: nat)
    requires Shaped(sh) && c.CopyOut? && ConsumerOk(sh, c)
    requires var slot := At(sh, c.r + |c.out|); |c.bytes| <= to <= FrameSize(slot.header) && to <= |slot.data|
    ensures ConsumerOk(sh, c.(bytes := c.bytes + At(sh, c.r + |c.out|).data[|c.bytes|..to]))
  {
    PrefixGrows(At(sh, c.r + |c.out|).data, |c.bytes|, to);
  }

  lemma CopyOutEnds(sh: Shared, c: Consumer)
    requires Shaped(sh) && c.CopyOut? && ConsumerOk(sh, c)
    requires |c.bytes| >= FrameSize(At(sh, c.r + |c.out|).header)
    ensures ConsumerOk(sh, Release(c.call, c.r, c.count, c.out, Frame(c.header, c.bytes)))
  {
  }

  lemma CopyOutOk(sh: Shared, c: Consumer, chunk: nat)
    requires Shaped(sh) && ConsumerOk(sh, c) && c.CopyOut?
    ensures var c' := ConsumerStep(sh, c, chunk).1;
            ConsumerOk(sh, c') && c'.out == c.out && (c'.CopyOut? || c'.Release?)
  {
    var slot := At(sh, c.r + |c.out|);
    if |c.bytes| >= FrameSize(slot.header) {
      CopyOutEnds(sh, c);
    } else {
      CopyOutGoesOn(sh, c, Min(|c.bytes| + 1 + chunk, FrameSize(slot.header)));
    }
  }

  lemma RetiredFlags(s: State, s': State)
    requires Bounded(s.shared) && FlagsOk(s) && ProducerOk(s.shared, s.producer) && s.consumer.Retire?
    requires s.shared.readSeq + |s.consumer.out| <= s.shared.writeSeq
    requires s' == State(s.shared.(readSeq := s.shared.readSeq + |s.consumer.out|), s.producer, Resting)
    ensures FlagsOk(s')
  {
    var sh, sh', n := s.shared, s'.shared, |s.shared.slots|;
    forall j | sh'.readSeq <= j < sh'.readSeq + n
      ensures At(sh', j).state == Expected(s', j)
    {
      assert At(sh', j) == At(sh, j);
      if j < sh.readSeq + n {
        assert At(sh, j).state == Expected(s, j);
      } else {
        SameSlot(j - n, n);
        assert At(sh, j - n).state == Expected(s, j - n);
      }
    }
  }

  lemma ContentsShrink(sh: Shared, out: seq<Frame>)
    requires Bounded(sh) && sh.readSeq + |out| <= sh.writeSeq
    requires forall k {:trigger out[k]} | 0 <= k < |out| :: out[k] == Stored(At(sh, sh.readSeq + k))
    ensures var sh' := sh.(readSeq := sh.readSeq + |out|);
            Bounded(sh') && out == Contents(sh)[..|out|] && Contents(sh') == Contents(sh)[|out|..]
  {
    var sh' := sh.(readSeq := sh.readSeq + |out|);
    forall k | 0 <= k < sh.writeSeq - sh'.readSeq
      ensures Contents(sh')[k] == Contents(sh)[|out| + k]
    {
      assert At(sh', sh'.readSeq + k) == At(sh, sh.readSeq + (|out| + k));
    }
  }

  lemma ProducerSeesRoom(sh: Shared, p: Producer, n: nat)
    requires Bounded(sh) && ProducerOk(sh, p)
    ensures ProducerOk(sh.(readSeq := sh.readSeq + n), p)
  {
    if !p.Idle? {
      assert At(sh.(readSeq := sh.readSeq + n), p.w) == At(sh, p.w);
    }
  }

  /** The store of read_seq removes exactly the frames delivered; their slots become free ones. */
  lemma RetireRefines(s: State, chunk: nat)
    requires Inv(s) && s.consumer.Retire?
    ensures var (s', e) := Step(s, Consume(chunk)); Refines(s, s', e)
  {
    var (s', e) := Step(s, Consume(chunk));
    RetiredFlags(s, s');
    ContentsShrink(s.shared, s.consumer.out);
    ProducerSeesRoom(s.shared, s.producer, |s.consumer.out|);
  }

  /** Every step of either side, from any reachable state, refines the FIFO. */
  lemma StepRefines(s: State, a: Action)
    requires Inv(s) && Enabled(s, a)
    ensures var (s', e) := Step(s, a); Refines(s, s', e)
  {
    match a
    case BeginPush(_) => BeginRefines(s, a);
    case BeginPop(_) => BeginRefines(s, a);
    case Produce(wall, chunk, fails) =>
      if s.producer.LoadRead? {
        ReadLoadRefines(s, wall, chunk, fails);
      } else if s.producer.CopyIn? {
        CopyInRefines(s, wall, chunk, fails);
      } else if s.producer.Advance? {
        AdvanceRefines(s, wall, chunk, fails);
      } else if s.producer.Claim? {
        ClaimRefines(s, wall, chunk, fails);
      } else if s.producer.Abort? || s.producer.Publish? {
        UnclaimRefines(s, wall, chunk, fails);
      } else {
        HeaderStoreRefines(s, wall, chunk, fails);
      }
    case Consume(chunk) =>
      if s.consumer.LoadWrite? {
        WriteLoadRefines(s, chunk);
      } else if s.consumer.Retire? {
        RetireRefines(s, chunk);
      } else if s.consumer.Take? {
        TakeRefines(s, chunk);
      } else if s.consumer.Release? {
        ReleaseRefines(s, chunk);
      } else if s.consumer.ReadHeader? {
        ReadHeaderRefines(s, chunk);
      } else {
        CopyOutRefines(s, chunk);
      }
  }
}
