/**
 Whole executions of the ring: any interleaving of any calls, from one shm_queue_create.
 */
module FrameRingRuns {
  import opened Common
  import opened FrameRing
  import opened FrameRingProofs

  /** ss[i] is the state before action i, and es[i] what that action reports. */
  ghost predicate Execution(actions: seq<Action>, ss: seq<State>, es: seq<Event>) {
    && |ss| == |actions| + 1 && |es| == |actions|
    && Created(ss[0])
    && forall i {:trigger actions[i]} | 0 <= i < |actions| :: Follows(ss[i], actions[i], ss[i + 1], es[i])
  }

  ghost predicate Follows(s: State, a: Action, s': State, e: Event) {
    WellFormed(s) && Enabled(s, a) && (s', e) == Step(s, a)
  }

  /** The execution without its last action. */
  lemma Shorten(actions: seq<Action>, ss: seq<State>, es: seq<Event>)
    requires Execution(actions, ss, es) && |actions| > 0
    ensures Execution(actions[..|actions| - 1], ss[..|ss| - 1], es[..|es| - 1])
  {
  }

  lemma CreatedInv(s: State)
    requires Created(s)
    ensures Inv(s) && Abs(s) == Fifo([], 0)
  {
  }

  /** Every state of every execution is a good one, and every step a step of the bounded FIFO. */
  lemma {:induction false} ExecutionRefines(actions: seq<Action>, ss: seq<State>, es: seq<Event>)
    requires Execution(actions, ss, es)
    ensures forall i {:trigger ss[i]} | 0 <= i < |ss| :: Inv(ss[i]) && |ss[i].shared.slots| == |ss[0].shared.slots|
    ensures Abs(ss[0]) == Fifo([], 0)
    ensures forall i {:trigger es[i]} | 0 <= i < |es| :: Refines(ss[i], ss[i + 1], es[i])
  {
    CreatedInv(ss[0]);
    if |actions| > 0 {
      Shorten(actions, ss, es);
      var n := |actions| - 1;
      ExecutionRefines(actions[..n], ss[..n + 1], es[..n]);
      assert ss[..n + 1][n] == ss[n];
      assert Follows(ss[n], actions[n], ss[n + 1], es[n]);
      StepRefines(ss[n], actions[n]);
      forall i | 0 <= i < |es|
        ensures Refines(ss[i], ss[i + 1], es[i])
      {
        if i < n {
          assert es[..n][i] == es[i] && ss[..n + 1][i] == ss[i] && ss[..n + 1][i + 1] == ss[i + 1];
        }
      }
      forall i | 0 <= i < |ss|
        ensures Inv(ss[i]) && |ss[i].shared.slots| == |ss[0].shared.slots|
      {
        if i <= n {
          assert ss[..n + 1][i] == ss[i];
        }
      }
    }
  }

  /** The frames whose push returned 0, in that order. */
  function AllPushed(es: seq<Event>): seq<Frame> {
    if es == [] then [] else
      AllPushed(es[..|es| - 1]) + (if es[|es| - 1].Pushed? then [es[|es| - 1].frame] else [])
  }

  /** The frames delivered by pop and pop_batch, in that order. */
  function AllPopped(es: seq<Event>): seq<Frame> {
    if es == [] then [] else
      AllPopped(es[..|es| - 1]) + (if es[|es| - 1].Popped? then es[|es| - 1].frames else [])
  }

  lemma OneEvent(cap: nat, q: Fifo, e: Event, q': Fifo, pushed: seq<Frame>, popped: seq<Frame>)
    requires FifoNext(cap, q, e, q') && pushed == popped + q.frames
    ensures pushed + (if e.Pushed? then [e.frame] else []) == popped + (if e.Popped? then e.frames else []) + q'.frames
  {
  }

  lemma RefinesAt(actions: seq<Action>, ss: seq<State>, es: seq<Event>, i: nat)
    requires Execution(actions, ss, es) && i < |es|
    ensures Refines(ss[i], ss[i + 1], es[i])
  {
    ExecutionRefines(actions, ss, es);
  }

  /** Nothing is lost, duplicated, altered or reordered: what was pushed is what was popped and then what is queued. */
  lemma {:induction false} NothingLost(actions: seq<Action>, ss: seq<State>, es: seq<Event>)
    requires Execution(actions, ss, es)
    ensures Inv(ss[|es|])
    ensures AllPushed(es) == AllPopped(es) + Contents(ss[|es|].shared)
  {
    if es == [] {
      CreatedInv(ss[0]);
    } else {
      var n := |es| - 1;
      RefinesAt(actions, ss, es, n);
      Shorten(actions, ss, es);
      assert ss[..n + 1][n] == ss[n];
      NothingLost(actions[..n], ss[..n + 1], es[..n]);
      OneEvent(|ss[n].shared.slots|, Abs(ss[n]), es[n], Abs(ss[n + 1]), AllPushed(es[..n]), AllPopped(es[..n]));
    }
  }

  /** No CAS ever fails: neither -3 nor the early exit of pop_batch is reachable. */
  lemma NoCollision(actions: seq<Action>, ss: seq<State>, es: seq<Event>, i: nat)
    requires Execution(actions, ss, es) && i < |es|
    ensures es[i] != PushCollided && es[i] != PopCollided
  {
    ExecutionRefines(actions, ss, es);
  }

  /** The slot under the producer's claim is never the one under the consumer's, nor any slot of the running batch. */
  lemma WriterAndReaderApart(actions: seq<Action>, ss: seq<State>, es: seq<Event>, i: nat, k: nat)
    requires Execution(actions, ss, es) && i < |ss|
    requires !ss[i].producer.Idle? && !ss[i].producer.LoadRead?
    requires !ss[i].consumer.Resting? && !ss[i].consumer.LoadWrite? && k < ss[i].consumer.count
    ensures var s := ss[i];
            && |s.shared.slots| > 0
            && s.producer.w % |s.shared.slots| != (s.consumer.r + k) % |s.shared.slots|
  {
    assert Inv(ss[i]) by { ExecutionRefines(actions, ss, es); }
    ApartIn(ss[i], k);
  }

  lemma ApartIn(s: State, k: nat)
    requires Inv(s) && !s.producer.Idle? && !s.producer.LoadRead?
    requires !s.consumer.Resting? && !s.consumer.LoadWrite? && k < s.consumer.count
    ensures s.producer.w % |s.shared.slots| != (s.consumer.r + k) % |s.shared.slots|
  {
    DistinctSlots(s.consumer.r + k, s.producer.w, |s.shared.slots|);
  }

  /** A pushed frame is the header and the bytes of the call that pushed it; only the wall time is new. */
  lemma {:induction false} PushedAsOffered(actions: seq<Action>, ss: seq<State>, es: seq<Event>, i: nat)
    returns (k: nat, wall: int)
    requires Execution(actions, ss, es) && i < |es| && es[i].Pushed?
    ensures k < i && actions[k].BeginPush? && actions[k].job.Valid()
    ensures es[i].frame == actions[k].job.Sent(wall) && Carries(es[i].frame, actions[k].job)
    ensures forall m {:trigger actions[m]} | k < m < i :: !actions[m].BeginPush?
    ensures Stamped(actions, k, i, wall) && es[i].frame.header.timestampWall == wall
  {
    assert Follows(ss[i], actions[i], ss[i + 1], es[i]);
    wall := ss[i].producer.wall;
    k := CallOf(actions, ss, es, i);
    var j := StampOf(actions, ss, es, i);
  }

  /** Between actions k and i, some step of the producer read this from the clock. */
  ghost predicate Stamped(actions: seq<Action>, k: int, i: int, wall: int) {
    exists j | 0 <= j < |actions| :: k < j < i && actions[j].Produce? && actions[j].wall == wall
  }

  /** The clock was read by a step of the same call. */
  lemma {:induction false} StampOf(actions: seq<Action>, ss: seq<State>, es: seq<Event>, i: nat) returns (j: nat)
    requires Execution(actions, ss, es) && i < |ss|
    requires ss[i].producer.CopyIn? || ss[i].producer.Publish? || ss[i].producer.Advance?
    ensures j < i && actions[j].Produce? && actions[j].wall == ss[i].producer.wall
    ensures forall m {:trigger actions[m]} | j < m < i :: !actions[m].BeginPush?
  {
    assert i > 0;
    assert Follows(ss[i - 1], actions[i - 1], ss[i], es[i - 1]);
    if ss[i - 1].producer.Stamp? && actions[i - 1].Produce? {
      j := i - 1;
    } else {
      j := StampOf(actions, ss, es, i - 1);
    }
  }

  /** The producer works on the most recent call. */
  lemma {:induction false} CallOf(actions: seq<Action>, ss: seq<State>, es: seq<Event>, i: nat) returns (k: nat)
    requires Execution(actions, ss, es) && i < |ss| && !ss[i].producer.Idle?
    ensures k < i && actions[k].BeginPush? && actions[k].job == ss[i].producer.job && actions[k].job.Valid()
    ensures forall m {:trigger actions[m]} | k < m < i :: !actions[m].BeginPush?
  {
    assert i > 0;
    assert Follows(ss[i - 1], actions[i - 1], ss[i], es[i - 1]);
    if actions[i - 1].BeginPush? {
      k := i - 1;
    } else {
      k := CallOf(actions, ss, es, i - 1);
    }
  }

  lemma {:induction false} NthPush(es: seq<Event>, m: nat) returns (i: nat)
    requires m < |AllPushed(es)|
    ensures i < |es| && es[i].Pushed? && es[i].frame == AllPushed(es)[m]
  {
    var n := |es| - 1;
    if m < |AllPushed(es[..n])| {
      i := NthPush(es[..n], m);
    } else {
      i := n;
    }
  }

  /** The m-th frame ever delivered, by pop or in a batch, is that of the m-th push, and carries what that offered. */
  lemma PoppedAsOffered(actions: seq<Action>, ss: seq<State>, es: seq<Event>, m: nat) returns (i: nat, k: nat)
    requires Execution(actions, ss, es) && m < |AllPopped(es)|
    ensures m < |AllPushed(es)| && i < |es| && es[i] == Pushed(AllPushed(es)[m]) && AllPopped(es)[m] == es[i].frame
    ensures k < i && actions[k].BeginPush? && Carries(AllPopped(es)[m], actions[k].job)
  {
    NothingLost(actions, ss, es);
    i := NthPush(es, m);
    var wall;
    k, wall := PushedAsOffered(actions, ss, es, i);
  }

  // ---------- No call waits for the other side ----------

  /** An upper bound on the producer's remaining steps. */
  function ProducerRank(p: Producer): nat {
    match p
    case Idle => 0
    case LoadRead(_, _) => MAX_FRAME_SIZE + 7
    case Claim(_, _) => MAX_FRAME_SIZE + 6
    case StoreHeader(_, _) => MAX_FRAME_SIZE + 5
    case Stamp(_, _) => MAX_FRAME_SIZE + 4
    case CopyIn(job, _, _, copied) => 3 + Max(0, MAX_FRAME_SIZE - copied)
    case Abort(_, _) => 1
    case Publish(_, _, _) => 2
    case Advance(_, _, _) => 1
  }

  const ROUND: nat := MAX_FRAME_SIZE + 4

  /** An upper bound on the consumer's remaining steps on a ring of capacity n. */
  function ConsumerRank(c: Consumer, n: nat): nat {
    match c
    case Resting => 0
    case LoadWrite(_, _) => 2 + ROUND * n
    case Take(_, _, count, out) => 1 + ROUND * Max(0, count - |out|)
    case ReadHeader(_, _, count, out) => ROUND * Max(0, count - |out|)
    case CopyOut(_, _, count, out, _, bytes) =>
      3 + Max(0, MAX_FRAME_SIZE - |bytes|) + ROUND * Max(0, count - |out| - 1)
    case Release(_, _, count, out, _) => 2 + ROUND * Max(0, count - |out| - 1)
    case Retire(_, _, _, _) => 1
  }

  /** Every step of the producer brings its call nearer to its return, whatever the consumer does. */
  lemma ProducerWaitFree(s: State, wall: int, chunk: nat, fails: bool)
    requires Inv(s) && !s.producer.Idle?
    ensures var (s', e) := Step(s, Produce(wall, chunk, fails));
            s'.consumer == s.consumer && ProducerRank(s'.producer) < ProducerRank(s.producer)
  {
  }

  /** Every step of the consumer brings its call nearer to its return, whatever the producer does. */
  lemma ConsumerWaitFree(s: State, chunk: nat)
    requires Inv(s) && !s.consumer.Resting?
    ensures var (s', e) := Step(s, Consume(chunk));
            s'.producer == s.producer
            && ConsumerRank(s'.consumer, |s.shared.slots|) < ConsumerRank(s.consumer, |s.shared.slots|)
  {
    if s.consumer.Take? {
      var j := s.consumer.r + |s.consumer.out|;
      assert At(s.shared, j).state == Expected(s, j);
    }
  }
}
