/**
 What one call of the frame synchroniser does, on values: two buffers, eviction of the oldest
 frames, and at most one emitted pair, the closest one.
 */
module FrameSyncSpec {

  datatype TimestampedFrame = TimestampedFrame(
    ptsNs: int, width: int, height: int, channels: int, data: seq<int>, streamIndex: int)

  type Frames = seq<TimestampedFrame>

  /**
   One camera kind over a whole run: the buffer as the code holds it, and the history of what
   became of every frame. The k-th matched frames of the two sides were emitted together.
   */
  datatype Side = Side(buffer: Frames, pushed: Frames, evicted: Frames, drained: Frames, matched: Frames)

  datatype World = World(vis: Side, uv: Side)

  const NOTHING: Side := Side([], [], [], [], [])

  const START: World := World(NOTHING, NOTHING)

  datatype Op = PushVisible(frame: TimestampedFrame) | PushUV(frame: TimestampedFrame) | Drain

  function Diff(a: TimestampedFrame, b: TimestampedFrame): nat {
    if a.ptsNs < b.ptsNs then b.ptsNs - a.ptsNs else a.ptsNs - b.ptsNs
  }

  // ---------- The closest pair ----------

  predicate InRange(vis: Frames, uv: Frames, i: int, j: int) {
    0 <= i < |vis| && 0 <= j < |uv|
  }

  /** Pair (i, j) wins over pair (k, l): it is closer, or as close and met earlier by the two nested scans. */
  predicate Beats(vis: Frames, uv: Frames, i: int, j: int, k: int, l: int)
    requires InRange(vis, uv, i, j) && InRange(vis, uv, k, l)
  {
    var d, e := Diff(vis[i], uv[j]), Diff(vis[k], uv[l]);
    d < e || (d == e && (i < k || (i == k && j < l)))
  }

  ghost predicate IsBest(vis: Frames, uv: Frames, i: int, j: int) {
    && InRange(vis, uv, i, j)
    && forall k, l | InRange(vis, uv, k, l) :: !Beats(vis, uv, k, l, i, j)
  }

  lemma {:induction false} BestExists(vis: Frames, uv: Frames, i: int, j: int) returns (k: int, l: int)
    requires InRange(vis, uv, i, j)
    ensures IsBest(vis, uv, k, l)
    decreases Diff(vis[i], uv[j]), i, j
  {
    if IsBest(vis, uv, i, j) {
      k, l := i, j;
    } else {
      k, l :| InRange(vis, uv, k, l) && Beats(vis, uv, k, l, i, j);
      k, l := BestExists(vis, uv, k, l);
    }
  }

  /** The pair the quadratic search of tryMatch ends with. */
  ghost function Best(vis: Frames, uv: Frames): (best: (int, int))
    requires vis != [] && uv != []
    ensures IsBest(vis, uv, best.0, best.1)
    ensures forall i, j :: IsBest(vis, uv, i, j) ==> best == (i, j)
  {
    assert exists i, j :: IsBest(vis, uv, i, j) by {
      var i, j := BestExists(vis, uv, 0, 0);
    }
    var i, j :| IsBest(vis, uv, i, j);
    assert forall k, l ::
        IsBest(vis, uv, k, l) ==> Beats(vis, uv, k, l, i, j) || (k, l) == (i, j) || Beats(vis, uv, i, j, k, l);
    (i, j)
  }

  function RemoveAt(q: Frames, i: int): Frames
    requires 0 <= i < |q|
  {
    q[..i] + q[i + 1..]
  }

  ghost function TryMatch(tolerance: int, w: World): World {
    if w.vis.buffer == [] || w.uv.buffer == [] then w
    else
      var (i, j) := Best(w.vis.buffer, w.uv.buffer);
      if Diff(w.vis.buffer[i], w.uv.buffer[j]) > tolerance then w
      else World(Matched(w.vis, i), Matched(w.uv, j))
  }

  function Matched(s: Side, i: int): Side
    requires 0 <= i < |s.buffer|
  {
    s.(buffer := RemoveAt(s.buffer, i), matched := s.matched + [s.buffer[i]])
  }

  // ---------- The calls ----------

  /** PushBack followed by evictOld. */
  function Enter(max: nat, s: Side, f: TimestampedFrame): Side {
    var q := s.buffer + [f];
    var over := if |q| > max then |q| - max else 0;
    s.(buffer := q[over..], pushed := s.pushed + [f], evicted := s.evicted + q[..over])
  }

  function Emptied(s: Side): Side {
    s.(buffer := [], drained := s.drained + s.buffer)
  }

  ghost function Step(tolerance: int, max: nat, w: World, op: Op): World {
    match op
    case PushVisible(f) => TryMatch(tolerance, w.(vis := Enter(max, w.vis, f)))
    case PushUV(f) => TryMatch(tolerance, w.(uv := Enter(max, w.uv, f)))
    case Drain => World(Emptied(w.vis), Emptied(w.uv))
  }

  ghost function Run(tolerance: int, max: nat, ops: seq<Op>): World {
    if ops == [] then START
    else Step(tolerance, max, Run(tolerance, max, ops[..|ops| - 1]), ops[|ops| - 1])
  }

  lemma RunOneMore(tolerance: int, max: nat, ops: seq<Op>, op: Op)
    ensures Run(tolerance, max, ops + [op]) == Step(tolerance, max, Run(tolerance, max, ops), op)
  {
    assert (ops + [op])[..|ops|] == ops;
  }

  // ---------- When eviction ends ----------

  /** The queue after n passes of the eviction loop; a pass over an empty queue changes nothing. */
  function EvictLoop(q: Frames, n: nat): Frames {
    if n == 0 then q
    else
      var before := EvictLoop(q, n - 1);
      if before == [] then before else before[1..]
  }

  lemma {:induction false} EvictLoopLeaves(q: Frames, n: nat)
    ensures EvictLoop(q, n) == if n <= |q| then q[n..] else []
  {
    if n == 0 {
    } else {
      EvictLoopLeaves(q, n - 1);
    }
  }

  /** The loop meets its exit test after some number of passes exactly when the limit is not negative. */
  lemma EvictionEndsIff(q: Frames, limit: int)
    ensures (exists n: nat :: |EvictLoop(q, n)| <= limit) <==> limit >= 0
  {
    EvictLoopLeaves(q, |q|);
    assert |EvictLoop(q, |q|)| == 0;
  }

  /** The pairs handed to the callback, in that order. */
  function Emitted(w: World): seq<(TimestampedFrame, TimestampedFrame)>
    requires |w.vis.matched| == |w.uv.matched|
  {
    seq(|w.vis.matched|, k requires 0 <= k < |w.vis.matched| => (w.vis.matched[k], w.uv.matched[k]))
  }

  lemma EnteringEmitsNothing(w: World, max: nat, frame: TimestampedFrame)
    requires |w.vis.matched| == |w.uv.matched|
    ensures Emitted(w.(vis := Enter(max, w.vis, frame))) == Emitted(w)
    ensures Emitted(w.(uv := Enter(max, w.uv, frame))) == Emitted(w)
  {
  }
}
