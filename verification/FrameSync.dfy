/**
 The synchroniser of one stream as the code runs it: two lists changed in place under one lock.
 The ghost field `world` records the history; every call is one step of FrameSyncSpec.
 */
module FrameSync {
  import opened FrameSyncSpec
  import FrameSyncRuns
  import FrameSyncTimes

  class FrameSync {
    var visibleFrames: Frames
    var uvFrames: Frames
    const toleranceNs: int
    const maxBufferSize: int
    /** What the callback has received so far. */
    var synced: seq<(TimestampedFrame, TimestampedFrame)>
    /** The calls so far, and what the specification makes of them. */
    ghost var history: seq<Op>
    ghost var world: World

    /** A negative limit admits no push; the other calls do not depend on it. */
    ghost function Limit(): nat {
      if maxBufferSize < 0 then 0 else maxBufferSize
    }

    /** The lists and the callback are those of the specification. */
    ghost predicate Linked()
      reads this
    {
      && visibleFrames == world.vis.buffer
      && uvFrames == world.uv.buffer
      && |world.vis.matched| == |world.uv.matched|
      && synced == Emitted(world)
    }

    ghost predicate Valid()
      reads this
    {
      Linked() && world == Run(toleranceNs, Limit(), history)
    }

    constructor (toleranceNs: int, maxBufferSize: int)
      ensures Valid() && world == START && history == []
      ensures this.toleranceNs == toleranceNs && this.maxBufferSize == maxBufferSize
      ensures visibleFrames == uvFrames == [] && synced == []
    {
      visibleFrames, uvFrames, synced := [], [], [];
      this.toleranceNs, this.maxBufferSize := toleranceNs, maxBufferSize;
      world, history := START, [];
    }

    /** Between calls no close pair is buffered, and every frame pushed is accounted for. */
    lemma AlwaysGood()
      requires Valid()
      ensures FrameSyncRuns.Good(toleranceNs, Limit(), world)
      ensures FrameSyncRuns.Quiescent(toleranceNs, world)
      ensures |visibleFrames| <= Limit() && |uvFrames| <= Limit()
    {
      FrameSyncRuns.RunGood(toleranceNs, Limit(), history);
    }

    /** In nanoseconds: what the callback has received, and what is still buffered. */
    lemma AlwaysInTime()
      requires Valid()
      ensures world.vis.pushed == FrameSyncTimes.VisiblesOf(history)
      ensures world.uv.pushed == FrameSyncTimes.UVsOf(history)
      ensures forall k | 0 <= k < |synced| ::
                && synced[k].0 in world.vis.pushed && synced[k].1 in world.uv.pushed
                && -toleranceNs <= synced[k].0.ptsNs - synced[k].1.ptsNs <= toleranceNs
      ensures FrameSyncTimes.NoneInTime(toleranceNs, visibleFrames, uvFrames)
    {
      FrameSyncTimes.PushedAreTheCalls(toleranceNs, Limit(), history);
      forall k | 0 <= k < |synced|
        ensures synced[k].0 in world.vis.pushed && synced[k].1 in world.uv.pushed
        ensures -toleranceNs <= synced[k].0.ptsNs - synced[k].1.ptsNs <= toleranceNs
      {
        FrameSyncTimes.EmittedWithinTolerance(toleranceNs, Limit(), history, k);
      }
      FrameSyncTimes.BufferedBeyondTolerance(toleranceNs, Limit(), history);
    }

    /** With spaced frames, none drained or evicted, the callback has exactly the pairs within the tolerance. */
    lemma SyncedIffInTime(v: TimestampedFrame, u: TimestampedFrame)
      requires Valid() && FrameSyncRuns.NoDrain(history)
      requires FrameSyncTimes.FarApart(toleranceNs, world.vis.pushed)
      requires FrameSyncTimes.FarApart(toleranceNs, world.uv.pushed)
      requires world.vis.evicted == world.uv.evicted == []
      ensures (v, u) in synced
              <==> v in world.vis.pushed && u in world.uv.pushed
                   && -toleranceNs <= v.ptsNs - u.ptsNs <= toleranceNs
    {
      FrameSyncTimes.EmittedIffWithinTolerance(toleranceNs, Limit(), history, v, u);
      if FrameSyncRuns.EmittedPair(world, v, u) {
        var k :| 0 <= k < |world.vis.matched| && world.vis.matched[k] == v && world.uv.matched[k] == u;
        assert synced[k] == (v, u);
      }
    }

    method PushVisible(frame: TimestampedFrame)
      requires Valid() && maxBufferSize >= 0
      modifies this
      ensures Valid() && history == old(history) + [Op.PushVisible(frame)]
      ensures world == Step(toleranceNs, maxBufferSize, old(world), Op.PushVisible(frame))
    {
      RunOneMore(toleranceNs, Limit(), history, Op.PushVisible(frame));
      history := history + [Op.PushVisible(frame)];
      visibleFrames := visibleFrames + [frame];
      visibleFrames := EvictOld(visibleFrames);
      EnteringEmitsNothing(world, maxBufferSize, frame);
      world := world.(vis := Enter(maxBufferSize, world.vis, frame));
      RunMatch();
    }

    method PushUV(frame: TimestampedFrame)
      requires Valid() && maxBufferSize >= 0
      modifies this
      ensures Valid() && history == old(history) + [Op.PushUV(frame)]
      ensures world == Step(toleranceNs, maxBufferSize, old(world), Op.PushUV(frame))
    {
      RunOneMore(toleranceNs, Limit(), history, Op.PushUV(frame));
      history := history + [Op.PushUV(frame)];
      uvFrames := uvFrames + [frame];
      uvFrames := EvictOld(uvFrames);
      EnteringEmitsNothing(world, maxBufferSize, frame);
      world := world.(uv := Enter(maxBufferSize, world.uv, frame));
      RunMatch();
    }

    /** With a negative limit the loop has no end: see EvictionEndsIff. */
    method EvictOld(queue: Frames) returns (kept: Frames)
      requires maxBufferSize >= 0
      ensures kept == queue[if |queue| > maxBufferSize then |queue| - maxBufferSize else 0..]
    {
      kept := queue;
      while |kept| > maxBufferSize
        invariant |kept| <= |queue| && kept == queue[|queue| - |kept|..]
        invariant |kept| < |queue| ==> |kept| >= maxBufferSize
      {
        kept := kept[1..];
      }
    }

    /** tryMatch: the quadratic search, then the removal of the winner from both lists. */
    method RunMatch()
      requires Linked()
      modifies this`visibleFrames, this`uvFrames, this`synced, this`world
      ensures Linked()
      ensures world == TryMatch(toleranceNs, old(world))
    {
      if |visibleFrames| == 0 || |uvFrames| == 0 {
        return;
      }
      var bestVis, bestUV, bestDiff := 0, 0, -1;
      for v := 0 to |visibleFrames|
        invariant v == 0 ==> bestDiff == -1
        invariant v > 0 ==> LeadsUpTo(bestVis, bestUV, bestDiff, v, 0)
      {
        for u := 0 to |uvFrames|
          invariant v == 0 && u == 0 ==> bestDiff == -1
          invariant v > 0 || u > 0 ==> LeadsUpTo(bestVis, bestUV, bestDiff, v, u)
        {
          var diff := visibleFrames[v].ptsNs - uvFrames[u].ptsNs;
          if diff < 0 {
            diff := -diff;
          }
          if bestDiff < 0 || diff < bestDiff {
            bestDiff, bestVis, bestUV := diff, v, u;
          }
        }
      }
      assert IsBest(visibleFrames, uvFrames, bestVis, bestUV);
      if bestDiff < 0 || bestDiff > toleranceNs {
        return;
      }
      var visFrame, uvFrame := visibleFrames[bestVis], uvFrames[bestUV];
      visibleFrames := RemoveAt(visibleFrames, bestVis);
      uvFrames := RemoveAt(uvFrames, bestUV);
      synced := synced + [(visFrame, uvFrame)];
      world := TryMatch(toleranceNs, world);
    }

    /** (bv, bu) wins among the pairs scanned before the scans reach (v, u). */
    ghost predicate LeadsUpTo(bv: int, bu: int, d: int, v: int, u: int)
      reads this
    {
      && InRange(visibleFrames, uvFrames, bv, bu)
      && (bv < v || (bv == v && bu < u))
      && d == Diff(visibleFrames[bv], uvFrames[bu])
      && forall k, l | InRange(visibleFrames, uvFrames, k, l) && (k < v || (k == v && l < u)) ::
           !Beats(visibleFrames, uvFrames, k, l, bv, bu)
    }

    method Drain()
      requires Valid()
      modifies this
      ensures Valid() && history == old(history) + [Op.Drain]
      ensures world == Step(toleranceNs, Limit(), old(world), Op.Drain)
      ensures visibleFrames == uvFrames == [] && synced == old(synced)
    {
      RunOneMore(toleranceNs, Limit(), history, Op.Drain);
      visibleFrames := [];
      uvFrames := [];
      world := World(Emptied(world.vis), Emptied(world.uv));
      history := history + [Op.Drain];
    }

    method QueueLengths() returns (visibleLen: nat, uvLen: nat)
      requires Valid()
      ensures visibleLen == |world.vis.buffer| && uvLen == |world.uv.buffer|
    {
      return |visibleFrames|, |uvFrames|;
    }
  }
}
