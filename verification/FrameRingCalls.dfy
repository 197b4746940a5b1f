/**
 Calls that nobody interrupts, as runs of the ring's steps: the other side stays where it is from the
 first load to the return. They answer, and change the queue, exactly as ShmFrameQueue's methods do.
 */
module FrameRingCalls {
  import opened Common
  import opened FrameRing
  import opened FrameRingProofs
  import opened FrameRingRuns

  /** A stretch of an execution, from any good state. */
  ghost predicate Stretch(actions: seq<Action>, ss: seq<State>, es: seq<Event>) {
    && |ss| == |actions| + 1 && |es| == |actions| && Inv(ss[0])
    && forall i {:trigger actions[i]} | 0 <= i < |actions| :: Follows(ss[i], actions[i], ss[i + 1], es[i])
  }

  // ---------- push ----------

  /** One push from its first load to its return, with one clock reading and one verdict of the copy. */
  ghost predicate LonePush(actions: seq<Action>, ss: seq<State>, es: seq<Event>, job: Job, wall: int, fails: bool) {
    && Stretch(actions, ss, es) && actions != [] && actions[0] == BeginPush(job)
    && (forall i {:trigger actions[i]} | 0 < i < |actions| ::
          actions[i].Produce? && actions[i].wall == wall && actions[i].fails == fails)
    && ss[|actions|].producer == Idle
  }

  /** The call is under way and nothing has shown yet. */
  ghost predicate Pushing(s: State, job: Job, wall: int, fails: bool, q: seq<Frame>, c: Consumer, cap: nat) {
    && Inv(s) && s.consumer == c && |s.shared.slots| == cap && Contents(s.shared) == q
    && !s.producer.Idle? && s.producer.job == job
    && PushStage(s.producer, wall, job.gpu && fails)
    && (!s.producer.LoadRead? ==> |q| < cap)
  }

  predicate PushStage(p: Producer, wall: int, failing: bool) {
    match p
    case CopyIn(_, _, w, _) => w == wall
    case Abort(_, _) => failing
    case Publish(_, _, w) => w == wall && !failing
    case Advance(_, _, w) => w == wall && !failing
    case _ => true
  }

  /** What push or push_gpu answers: -2, -4 or 0. */
  function PushAnswer(job: Job, wall: int, fails: bool, q: seq<Frame>, cap: nat): Event
    requires job.Valid()
  {
    if |q| == cap then Full else if job.gpu && fails then CopyFailed else Pushed(job.Sent(wall))
  }

  function PushResult(job: Job, wall: int, fails: bool, q: seq<Frame>, cap: nat): seq<Frame>
    requires job.Valid()
  {
    if PushAnswer(job, wall, fails, q, cap).Pushed? then q + [job.Sent(wall)] else q
  }

  ghost predicate PushDone(s: State, e: Event, job: Job, wall: int, fails: bool, q: seq<Frame>, c: Consumer, cap: nat) {
    && Inv(s) && s.consumer == c && |s.shared.slots| == cap && s.producer == Idle && job.Valid()
    && e == PushAnswer(job, wall, fails, q, cap) && Contents(s.shared) == PushResult(job, wall, fails, q, cap)
  }

  lemma PushBegins(s: State, job: Job, wall: int, fails: bool)
    requires Inv(s) && Enabled(s, BeginPush(job))
    ensures Pushing(Step(s, BeginPush(job)).0, job, wall, fails, Contents(s.shared), s.consumer, |s.shared.slots|)
  {
    BeginRefines(s, BeginPush(job));
  }

  lemma PushGoesOn(s: State, job: Job, wall: int, chunk: nat, fails: bool, q: seq<Frame>, c: Consumer, cap: nat)
    requires Pushing(s, job, wall, fails, q, c, cap)
    ensures var (s', e) := Step(s, Produce(wall, chunk, fails));
            if s'.producer.Idle? then PushDone(s', e, job, wall, fails, q, c, cap)
            else Pushing(s', job, wall, fails, q, c, cap)
  {
    var (s', e) := Step(s, Produce(wall, chunk, fails));
    StepRefines(s, Produce(wall, chunk, fails));
    assert s'.consumer == c;
    assert !s'.producer.Idle? ==> e == Silent;
    assert |q| == s.shared.writeSeq - s.shared.readSeq;
  }

  lemma {:induction false} PushUnderWay(actions: seq<Action>, ss: seq<State>, es: seq<Event>,
                                        job: Job, wall: int, fails: bool, n: nat)
    requires LonePush(actions, ss, es, job, wall, fails) && 0 < n <= |actions|
    ensures var q, c, cap := Contents(ss[0].shared), ss[0].consumer, |ss[0].shared.slots|;
            if n < |actions| then Pushing(ss[n], job, wall, fails, q, c, cap)
            else PushDone(ss[n], es[n - 1], job, wall, fails, q, c, cap)
  {
    assert Follows(ss[n - 1], actions[n - 1], ss[n], es[n - 1]);
    if n == 1 {
      PushBegins(ss[0], job, wall, fails);
    } else {
      PushUnderWay(actions, ss, es, job, wall, fails, n - 1);
      PushGoesOn(ss[n - 1], job, wall, actions[n - 1].chunk, fails,
                 Contents(ss[0].shared), ss[0].consumer, |ss[0].shared.slots|);
    }
    if n < |actions| {
      assert Follows(ss[n], actions[n], ss[n + 1], es[n]);
    }
  }

  /** A push nobody interrupts answers and appends as ShmFrameQueue.Queue.Push does. */
  lemma LonePushAnswers(actions: seq<Action>, ss: seq<State>, es: seq<Event>, job: Job, wall: int, fails: bool)
    requires LonePush(actions, ss, es, job, wall, fails)
    ensures PushDone(ss[|actions|], es[|actions| - 1], job, wall, fails,
                     Contents(ss[0].shared), ss[0].consumer, |ss[0].shared.slots|)
  {
    PushUnderWay(actions, ss, es, job, wall, fails, |actions|);
  }

  // ---------- pop and pop_batch ----------

  /** One pop or pop_batch from its first load to its return. */
  ghost predicate LonePop(actions: seq<Action>, ss: seq<State>, es: seq<Event>, call: Call) {
    && Stretch(actions, ss, es) && actions != [] && actions[0] == BeginPop(call)
    && (forall i {:trigger actions[i]} | 0 < i < |actions| :: actions[i].Consume?)
    && ss[|actions|].consumer == Resting
  }

  /** How many frames the call delivers from q. */
  function Served(call: Call, q: seq<Frame>): (n: nat)
    ensures n <= |q|
  {
    match call
    case Pop => Min(|q|, 1)
    case PopBatch(max) => Max(0, Min(|q|, max))
  }

  ghost predicate Popping(s: State, call: Call, q: seq<Frame>, p: Producer, cap: nat) {
    && Inv(s) && s.producer == p && |s.shared.slots| == cap && Contents(s.shared) == q
    && !s.consumer.Resting? && s.consumer.call == call
    && (!s.consumer.LoadWrite? ==> Promise(s.consumer) == Served(call, q) && (call.Pop? ==> q != []))
  }

  /** What pop and pop_batch answer: -2, or the oldest frames. */
  function PopAnswer(call: Call, q: seq<Frame>): Event {
    if call.Pop? && q == [] then Empty else Popped(q[..Served(call, q)])
  }

  ghost predicate PopDone(s: State, e: Event, call: Call, q: seq<Frame>, p: Producer, cap: nat) {
    && Inv(s) && s.producer == p && |s.shared.slots| == cap && s.consumer == Resting
    && e == PopAnswer(call, q) && Contents(s.shared) == q[Served(call, q)..]
  }

  lemma PopBegins(s: State, call: Call)
    requires Inv(s) && Enabled(s, BeginPop(call))
    ensures Popping(Step(s, BeginPop(call)).0, call, Contents(s.shared), s.producer, |s.shared.slots|)
  {
    BeginRefines(s, BeginPop(call));
  }

  /** The load of write_seq answers empty or fixes how many frames are served. */
  lemma PopLoads(s: State, call: Call, chunk: nat, q: seq<Frame>, p: Producer, cap: nat)
    requires Popping(s, call, q, p, cap) && s.consumer.LoadWrite?
    ensures var (s', e) := Step(s, Consume(chunk));
            if s'.consumer.Resting? then PopDone(s', e, call, q, p, cap) else Popping(s', call, q, p, cap)
  {
    WriteLoadRefines(s, chunk);
    assert |q| == s.shared.writeSeq - s.shared.readSeq;
  }

  lemma PopRetires(s: State, call: Call, chunk: nat, q: seq<Frame>, p: Producer, cap: nat)
    requires Popping(s, call, q, p, cap) && s.consumer.Retire?
    ensures var (s', e) := Step(s, Consume(chunk)); PopDone(s', e, call, q, p, cap)
  {
    RetireRefines(s, chunk);
  }

  /** The steps in between are silent. */
  lemma PopServes(s: State, call: Call, chunk: nat, q: seq<Frame>, p: Producer, cap: nat)
    requires Popping(s, call, q, p, cap) && !s.consumer.LoadWrite? && !s.consumer.Retire?
    ensures Popping(Step(s, Consume(chunk)).0, call, q, p, cap)
  {
    var (s', e) := Step(s, Consume(chunk));
    StepRefines(s, Consume(chunk));
    assert e.Silent? || e.PopCollided?;
  }

  lemma PopGoesOn(s: State, call: Call, chunk: nat, q: seq<Frame>, p: Producer, cap: nat)
    requires Popping(s, call, q, p, cap)
    ensures var (s', e) := Step(s, Consume(chunk));
            if s'.consumer.Resting? then PopDone(s', e, call, q, p, cap) else Popping(s', call, q, p, cap)
  {
    if s.consumer.LoadWrite? {
      PopLoads(s, call, chunk, q, p, cap);
    } else if s.consumer.Retire? {
      PopRetires(s, call, chunk, q, p, cap);
    } else {
      PopServes(s, call, chunk, q, p, cap);
    }
  }

  lemma {:induction false} PopUnderWay(actions: seq<Action>, ss: seq<State>, es: seq<Event>, call: Call, n: nat)
    requires LonePop(actions, ss, es, call) && 0 < n <= |actions|
    ensures var q, p, cap := Contents(ss[0].shared), ss[0].producer, |ss[0].shared.slots|;
            if n < |actions| then Popping(ss[n], call, q, p, cap) else PopDone(ss[n], es[n - 1], call, q, p, cap)
  {
    assert Follows(ss[n - 1], actions[n - 1], ss[n], es[n - 1]);
    if n == 1 {
      PopBegins(ss[0], call);
    } else {
      PopUnderWay(actions, ss, es, call, n - 1);
      PopGoesOn(ss[n - 1], call, actions[n - 1].chunk, Contents(ss[0].shared), ss[0].producer, |ss[0].shared.slots|);
    }
    if n < |actions| {
      assert Follows(ss[n], actions[n], ss[n + 1], es[n]);
    }
  }

  /** A pop or batch nobody interrupts delivers and removes as ShmFrameQueue.Queue's Pop and PopBatch do. */
  lemma LonePopAnswers(actions: seq<Action>, ss: seq<State>, es: seq<Event>, call: Call)
    requires LonePop(actions, ss, es, call)
    ensures PopDone(ss[|actions|], es[|actions| - 1], call, Contents(ss[0].shared), ss[0].producer,
                    |ss[0].shared.slots|)
  {
    PopUnderWay(actions, ss, es, call, |actions|);
  }
}
