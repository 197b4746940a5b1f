/**
 The queue as its calls run when nobody interrupts them: the bodies of push, push_gpu, pop and
 pop_batch over memory changed in place, on the same shared memory that FrameRing interleaves.
 */
module ShmFrameQueue {
  import opened Common
  import opened FrameRing
  import opened FrameRingProofs

  class Queue {
    var writeSeq: int
    var readSeq: int
    const slots: array<Slot>

    ghost function Snapshot(): Shared
      reads this, slots
    {
      Shared(writeSeq, readSeq, slots[..])
    }

    ghost predicate Valid()
      reads this, slots
    {
      Inv(State(Snapshot(), Idle, Resting))
    }

    ghost function Frames(): seq<Frame>
      reads this, slots
      requires Valid()
    {
      Contents(Snapshot())
    }

    constructor (capacity: nat)
      requires capacity > 0
      ensures Valid() && fresh(slots) && slots.Length == capacity
      ensures Frames() == []
    {
      var zeros := seq(MAX_FRAME_SIZE, _ => 0 as byte);
      writeSeq, readSeq := 0, 0;
      slots := new Slot[capacity](_ => Slot(Header(0, 0, 0, 0, VisibleLight, 0, 0), zeros, Free));
      new;
      forall j | 0 <= j < capacity
        ensures At(Snapshot(), j).state == Free
      {
      }
    }

    /** shm_queue_push, and shm_queue_push_gpu when job.gpu; `fails` is the verdict of the device copy. */
    method Push(job: Job, wall: int, fails: bool) returns (rc: int)
      requires Valid() && job.Valid()
      modifies this`writeSeq, slots
      ensures Valid()
      ensures rc == (if |old(Frames())| == slots.Length then -2 else if job.gpu && fails then -4 else 0)
      ensures Frames() == if rc == 0 then old(Frames()) + [job.Sent(wall)] else old(Frames())
      ensures rc == 0 ==>
                var frame := Frames()[|old(Frames())|];
                Carries(frame, job) && frame.header.timestampWall == wall
    {
      ghost var before := Snapshot();
      var w := writeSeq;
      var r := readSeq;
      if w - r >= slots.Length {
        return -2;
      }
      var i := w % slots.Length;
      FreeAtWriter(before);
      if slots[i].state != Free {
        return -3;
      }
      slots[i] := slots[i].(state := Writing);
      slots[i] := slots[i].(header := job.header);
      slots[i] := slots[i].(header := slots[i].header.(timestampWall := wall));
      var frameSize := FrameSize(job.header);
      if job.gpu && fails {
        slots[i] := slots[i].(state := Free);
        Unpublished(before, slots[i]);
        assert Snapshot() == Put(before, w, slots[i]);
        return -4;
      }
      slots[i] := slots[i].(data := Overwrite(slots[i].data, job.data, 0, frameSize));
      slots[i] := slots[i].(state := Ready);
      assert slots[i].data[..frameSize] == job.data[..frameSize];
      writeSeq := w + 1;
      Enqueued(before, slots[i]);
      assert Snapshot() == Put(before, w, slots[i]).(writeSeq := w + 1);
      return 0;
    }

    /** The part pop and pop_batch share: claim slot i, copy it out, free it. */
    method Deliver(i: nat) returns (frame: Option<Frame>)
      requires i < slots.Length && |slots[i].data| == MAX_FRAME_SIZE
      modifies slots
      ensures old(slots[i]).state == Ready ==>
                frame == Some(Stored(old(slots[i]))) && slots[..] == old(slots[..])[i := old(slots[i]).(state := Free)]
      ensures old(slots[i]).state == Ready ==> IsCopy(frame.value, old(slots[i]).header, old(slots[i]).data)
      ensures old(slots[i]).state != Ready ==> frame == None && slots[..] == old(slots[..])
    {
      if slots[i].state != Ready {
        return None;
      }
      slots[i] := slots[i].(state := Reading);
      var header := slots[i].header;
      var bytes := slots[i].data[..FrameSize(slots[i].header)];
      slots[i] := slots[i].(state := Free);
      return Some(Frame(header, bytes));
    }

    method Pop() returns (rc: int, out: Option<Frame>)
      requires Valid()
      modifies this`readSeq, slots
      ensures Valid()
      ensures rc == if old(Frames()) == [] then -2 else 0
      ensures rc == 0 ==> out == Some(old(Frames())[0]) && Frames() == old(Frames())[1..]
      ensures rc == 0 ==> Snapshot() == Dequeue(old(Snapshot()))
      ensures rc != 0 ==> out == None && Snapshot() == old(Snapshot())
    {
      ghost var before := Snapshot();
      var r := readSeq;
      var w := writeSeq;
      if r >= w {
        return -2, None;
      }
      Dequeued(before);
      out := Deliver(r % slots.Length);
      if out == None {
        return -3, None;
      }
      readSeq := r + 1;
      assert Snapshot() == Dequeue(before);
      return 0, out;
    }

    /**
     outs holds the frames written to out_headers and out_datas; its length is *out_count. The memory
     is left as that many pops leave it.
     */
    method PopBatch(maxCount: int) returns (rc: int, outs: seq<Frame>)
      requires Valid()
      modifies this`readSeq, slots
      ensures Valid()
      ensures rc == 0 && |outs| == Max(0, Min(|old(Frames())|, maxCount))
      ensures outs == old(Frames())[..|outs|] && Frames() == old(Frames())[|outs|..]
      ensures Snapshot() == Pops(old(Snapshot()), |outs|)
    {
      ghost var before := Snapshot();
      var r := readSeq;
      var w := writeSeq;
      var available := w - r;
      var count := Min(available, maxCount);
      FreeAtWriter(before);
      AllReadyAtStart(before, count);
      outs := DeliverUpTo(count, before, Contents(before));
      readSeq := r + |outs|;
      PopsDeliver(before, |outs|);
      assert Snapshot() == Pops(before, |outs|);
      return 0, outs;
    }

    /** The loop of pop_batch; read_seq stays where it is while the slots become free one by one. */
    method DeliverUpTo(count: int, ghost before: Shared, ghost frames: seq<Frame>) returns (outs: seq<Frame>)
      requires Snapshot() == before && slots.Length > 0 && AllReady(before, frames, count)
      modifies slots
      ensures |outs| == Max(count, 0) && outs == frames[..|outs|]
      ensures Snapshot() == Pops(before, |outs|).(readSeq := before.readSeq)
    {
      outs := [];
      while |outs| < count
        invariant |outs| <= Max(count, 0) && outs == frames[..|outs|]
        invariant Snapshot() == Pops(before, |outs|).(readSeq := before.readSeq)
      {
        assert ReadyAt(before, frames, |outs|);
        NextPop(before, |outs|);
        var frame := Deliver((readSeq + |outs|) % slots.Length);
        if frame == None {
          break;
        }
        outs := outs + [frame.value];
      }
    }
  }

  // ---------- What whole uninterrupted calls do to the shared memory ----------

  lemma FreeAtWriter(sh: Shared)
    requires Inv(State(sh, Idle, Resting))
    ensures |Contents(sh)| == sh.writeSeq - sh.readSeq
    ensures sh.writeSeq < sh.readSeq + |sh.slots| ==> At(sh, sh.writeSeq).state == Free
  {
  }

  /** The failed copy of push_gpu leaves garbage in a free slot, which the queue does not show. */
  lemma Unpublished(sh: Shared, slot: Slot)
    requires Inv(State(sh, Idle, Resting)) && sh.writeSeq < sh.readSeq + |sh.slots|
    requires slot.state == Free && |slot.data| == MAX_FRAME_SIZE
    ensures var sh' := Put(sh, sh.writeSeq, slot);
            Inv(State(sh', Idle, Resting)) && Contents(sh') == Contents(sh)
  {
    StoreKeeps(State(sh, Idle, Resting), State(Put(sh, sh.writeSeq, slot), Idle, Resting), sh.writeSeq, slot);
  }

  lemma EnqueuedFlags(sh: Shared, mid: Shared)
    requires Bounded(sh) && FlagsOk(State(sh, Idle, Resting)) && sh.writeSeq < sh.readSeq + |sh.slots|
    requires Shaped(mid) && SameBut(sh, mid, sh.writeSeq) && At(mid, sh.writeSeq).state == Ready
    ensures FlagsOk(State(mid.(writeSeq := sh.writeSeq + 1), Idle, Resting))
  {
    var sh' := mid.(writeSeq := sh.writeSeq + 1);
    forall j | sh'.readSeq <= j < sh'.readSeq + |sh'.slots|
      ensures At(sh', j).state == Expected(State(sh', Idle, Resting), j)
    {
      assert At(sh', j) == At(mid, j);
      assert j != sh.writeSeq ==> At(mid, j) == At(sh, j);
      assert At(sh, j).state == Expected(State(sh, Idle, Resting), j);
    }
  }

  lemma Enqueued(sh: Shared, slot: Slot)
    requires Inv(State(sh, Idle, Resting)) && sh.writeSeq < sh.readSeq + |sh.slots|
    requires slot.state == Ready && |slot.data| == MAX_FRAME_SIZE
    ensures var sh' := Put(sh, sh.writeSeq, slot).(writeSeq := sh.writeSeq + 1);
            Inv(State(sh', Idle, Resting)) && Contents(sh') == Contents(sh) + [Stored(slot)]
  {
    var mid := Put(sh, sh.writeSeq, slot);
    PutElsewhere(sh, sh.writeSeq, slot);
    EnqueuedFlags(sh, mid);
    ContentsKept(sh, mid, sh.writeSeq);
    ContentsGrow(mid);
  }

  /** The memory after one whole pop. */
  function Dequeue(sh: Shared): Shared
    requires |sh.slots| > 0
  {
    Put(sh, sh.readSeq, At(sh, sh.readSeq).(state := Free)).(readSeq := sh.readSeq + 1)
  }

  lemma DequeuedFlags(sh: Shared, mid: Shared)
    requires Bounded(sh) && FlagsOk(State(sh, Idle, Resting)) && sh.readSeq < sh.writeSeq
    requires Shaped(mid) && SameBut(sh, mid, sh.readSeq) && At(mid, sh.readSeq).state == Free
    ensures FlagsOk(State(mid.(readSeq := sh.readSeq + 1), Idle, Resting))
  {
    var sh', n := mid.(readSeq := sh.readSeq + 1), |sh.slots|;
    forall j | sh'.readSeq <= j < sh'.readSeq + n
      ensures At(sh', j).state == Expected(State(sh', Idle, Resting), j)
    {
      assert At(sh', j) == At(mid, j);
      if j < sh.readSeq + n {
        assert At(mid, j) == At(sh, j);
        assert At(sh, j).state == Expected(State(sh, Idle, Resting), j);
      } else {
        SameSlot(sh.readSeq, n);
      }
    }
  }

  lemma Dequeued(sh: Shared)
    requires Inv(State(sh, Idle, Resting)) && sh.readSeq < sh.writeSeq
    ensures At(sh, sh.readSeq).state == Ready
    ensures Inv(State(Dequeue(sh), Idle, Resting))
    ensures |At(sh, sh.readSeq).data| == MAX_FRAME_SIZE && Contents(sh) != []
    ensures Stored(At(sh, sh.readSeq)) == Contents(sh)[0] && Contents(Dequeue(sh)) == Contents(sh)[1..]
  {
    var slot := At(sh, sh.readSeq);
    assert slot.state == Expected(State(sh, Idle, Resting), sh.readSeq);
    var mid := Put(sh, sh.readSeq, slot.(state := Free));
    PutElsewhere(sh, sh.readSeq, slot.(state := Free));
    DequeuedFlags(sh, mid);
    ContentsKept(sh, mid, sh.readSeq);
    ContentsShrink(mid, [Stored(slot)]);
  }

  /** The memory after n whole pops, one after the other. */
  function Pops(sh: Shared, n: nat): (sh': Shared)
    requires |sh.slots| > 0
    ensures |sh'.slots| == |sh.slots| && sh'.readSeq == sh.readSeq + n && sh'.writeSeq == sh.writeSeq
  {
    if n == 0 then sh else Dequeue(Pops(sh, n - 1))
  }

  /** After n pops the queue holds what was behind its first n frames. */
  lemma {:induction false} PopsDeliver(sh: Shared, n: nat)
    requires Inv(State(sh, Idle, Resting)) && n <= |Contents(sh)|
    ensures Inv(State(Pops(sh, n), Idle, Resting)) && Contents(Pops(sh, n)) == Contents(sh)[n..]
  {
    if n == 0 {
    } else {
      PopsDeliver(sh, n - 1);
      Dequeued(Pops(sh, n - 1));
      TailOfTail(Contents(sh), n - 1);
    }
  }

  lemma TailOfTail(frames: seq<Frame>, n: nat)
    requires n < |frames|
    ensures frames[n..] != [] && frames[n..][0] == frames[n] && frames[n..][1..] == frames[n + 1..]
    ensures frames[..n] + [frames[n]] == frames[..n + 1]
  {
  }

  /**
   The slot a batch claims after n deliveries is ready and holds the next frame, although read_seq has
   not moved.
   */
  predicate ReadyAt(sh: Shared, frames: seq<Frame>, n: nat)
    requires |sh.slots| > 0 && n < |frames|
  {
    var slot := At(Pops(sh, n), sh.readSeq + n);
    slot.state == Ready && |slot.data| == MAX_FRAME_SIZE && frames[..n] + [Stored(slot)] == frames[..n + 1]
  }

  ghost predicate AllReady(sh: Shared, frames: seq<Frame>, count: int)
    requires |sh.slots| > 0
  {
    count <= |frames| && forall n: nat | n < count :: ReadyAt(sh, frames, n)
  }

  lemma NextReady(sh: Shared, n: nat)
    requires Inv(State(sh, Idle, Resting)) && n < |Contents(sh)|
    ensures ReadyAt(sh, Contents(sh), n)
  {
    PopsDeliver(sh, n);
    TailOfTail(Contents(sh), n);
    Dequeued(Pops(sh, n));
  }

  lemma AllReadyAtStart(sh: Shared, count: int)
    requires Inv(State(sh, Idle, Resting)) && count <= |Contents(sh)|
    ensures AllReady(sh, Contents(sh), count)
  {
    forall n: nat | n < count
      ensures ReadyAt(sh, Contents(sh), n)
    {
      NextReady(sh, n);
    }
  }

  /** Freeing that slot is one more pop, but for read_seq. */
  lemma NextPop(sh: Shared, n: nat)
    requires |sh.slots| > 0
    ensures var now := Pops(sh, n).(readSeq := sh.readSeq);
            && now.slots == Pops(sh, n).slots
            && Pops(sh, n + 1).(readSeq := sh.readSeq)
               == Put(now, sh.readSeq + n, At(now, sh.readSeq + n).(state := Free))
  {
  }
}
