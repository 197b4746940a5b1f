/**
 The synchroniser's promises in nanoseconds: what the tolerance means for the timestamps of emitted,
 buffered and pushed frames.
 */
module FrameSyncTimes {
  import opened FrameSyncSpec
  import opened FrameSyncRuns

  // ---------- What was pushed ----------

  /** The frames of the visible pushes among the calls, in order. */
  function VisiblesOf(ops: seq<Op>): Frames {
    if ops == [] then []
    else
      var op := ops[|ops| - 1];
      VisiblesOf(ops[..|ops| - 1]) + (if op.PushVisible? then [op.frame] else [])
  }

  /** And of the UV pushes. */
  function UVsOf(ops: seq<Op>): Frames {
    if ops == [] then []
    else
      var op := ops[|ops| - 1];
      UVsOf(ops[..|ops| - 1]) + (if op.PushUV? then [op.frame] else [])
  }

  /** The frames a run has to account for are those of its calls. */
  lemma {:induction false} PushedAreTheCalls(tolerance: int, max: nat, ops: seq<Op>)
    ensures Run(tolerance, max, ops).vis.pushed == VisiblesOf(ops)
    ensures Run(tolerance, max, ops).uv.pushed == UVsOf(ops)
  {
    if ops == [] {
    } else {
      PushedAreTheCalls(tolerance, max, ops[..|ops| - 1]);
      PushedGrows(tolerance, max, Run(tolerance, max, ops[..|ops| - 1]), ops[|ops| - 1]);
    }
  }

  // ---------- The tolerance ----------

  /** Any two frames of one kind lie more than two tolerances apart. */
  predicate FarApart(tolerance: int, pushed: Frames) {
    forall i, j | 0 <= i < |pushed| && 0 <= j < |pushed| && i != j ::
      pushed[i].ptsNs - pushed[j].ptsNs > 2 * tolerance || pushed[j].ptsNs - pushed[i].ptsNs > 2 * tolerance
  }

  /** Both frames of an emitted pair were pushed, and their timestamps differ by at most the tolerance. */
  lemma EmittedWithinTolerance(tolerance: int, max: nat, ops: seq<Op>, k: nat)
    requires k < |Run(tolerance, max, ops).vis.matched|
    ensures var w := Run(tolerance, max, ops);
            && |w.uv.matched| == |w.vis.matched|
            && w.vis.matched[k] in w.vis.pushed && w.uv.matched[k] in w.uv.pushed
            && -tolerance <= w.vis.matched[k].ptsNs - w.uv.matched[k].ptsNs <= tolerance
  {
    RunGood(tolerance, max, ops);
    var w := Run(tolerance, max, ops);
    var a := MatchedWasPushed(w.vis, k);
    var b := MatchedWasPushed(w.uv, k);
  }

  /** Two buffered frames of different kinds differ by more than the tolerance. */
  ghost predicate NoneInTime(tolerance: int, vis: Frames, uv: Frames) {
    forall i, j | 0 <= i < |vis| && 0 <= j < |uv| ::
      vis[i].ptsNs - uv[j].ptsNs > tolerance || uv[j].ptsNs - vis[i].ptsNs > tolerance
  }

  lemma QuietIsBeyond(tolerance: int, w: World)
    requires Quiescent(tolerance, w)
    ensures NoneInTime(tolerance, w.vis.buffer, w.uv.buffer)
  {
    forall i, j | 0 <= i < |w.vis.buffer| && 0 <= j < |w.uv.buffer|
      ensures w.vis.buffer[i].ptsNs - w.uv.buffer[j].ptsNs > tolerance
              || w.uv.buffer[j].ptsNs - w.vis.buffer[i].ptsNs > tolerance
    {
      assert InRange(w.vis.buffer, w.uv.buffer, i, j);
    }
  }

  /** After every call of every run, no pair within the tolerance is left in the buffers. */
  lemma BufferedBeyondTolerance(tolerance: int, max: nat, ops: seq<Op>)
    ensures NoneInTime(tolerance, Run(tolerance, max, ops).vis.buffer, Run(tolerance, max, ops).uv.buffer)
  {
    RunGood(tolerance, max, ops);
    QuietIsBeyond(tolerance, Run(tolerance, max, ops));
  }

  /** Frames i and j lie d nanoseconds apart, and no two frames of the two buffers lie closer. */
  ghost predicate Closest(vis: Frames, uv: Frames, i: int, j: int, d: int) {
    && 0 <= i < |vis| && 0 <= j < |uv| && d >= 0
    && (vis[i].ptsNs - uv[j].ptsNs == d || uv[j].ptsNs - vis[i].ptsNs == d)
    && forall k, l | 0 <= k < |vis| && 0 <= l < |uv| ::
         vis[k].ptsNs - uv[l].ptsNs >= d || uv[l].ptsNs - vis[k].ptsNs >= d
  }

  lemma BestIsClosest(vis: Frames, uv: Frames, i: int, j: int) returns (d: int)
    requires IsBest(vis, uv, i, j)
    ensures Closest(vis, uv, i, j, d)
  {
    d := Diff(vis[i], uv[j]);
    forall k, l | 0 <= k < |vis| && 0 <= l < |uv|
      ensures vis[k].ptsNs - uv[l].ptsNs >= d || uv[l].ptsNs - vis[k].ptsNs >= d
    {
      assert InRange(vis, uv, k, l);
      assert !Beats(vis, uv, k, l, i, j);
    }
  }

  /** A match takes a closest pair out of the buffers if that lies within the tolerance, and else changes nothing. */
  lemma MatchTakesTheClosest(tolerance: int, w: World) returns (i: int, j: int, d: int)
    requires w.vis.buffer != [] && w.uv.buffer != []
    ensures Closest(w.vis.buffer, w.uv.buffer, i, j, d)
    ensures var w' := TryMatch(tolerance, w);
            if d > tolerance then w' == w
            else
              && w'.vis.matched == w.vis.matched + [w.vis.buffer[i]]
              && w'.uv.matched == w.uv.matched + [w.uv.buffer[j]]
              && w'.vis.buffer == w.vis.buffer[..i] + w.vis.buffer[i + 1..]
              && w'.uv.buffer == w.uv.buffer[..j] + w.uv.buffer[j + 1..]
  {
    var best := Best(w.vis.buffer, w.uv.buffer);
    i, j := best.0, best.1;
    d := BestIsClosest(w.vis.buffer, w.uv.buffer, i, j);
  }

  lemma FarApartIsSpaced(tolerance: int, pushed: Frames)
    requires FarApart(tolerance, pushed)
    ensures Spaced(tolerance, pushed)
  {
  }

  /** With spaced frames, none drained or evicted, a pair is emitted if and only if it is within the tolerance. */
  lemma EmittedIffWithinTolerance(tolerance: int, max: nat, ops: seq<Op>, v: TimestampedFrame, u: TimestampedFrame)
    requires NoDrain(ops)
    requires FarApart(tolerance, Run(tolerance, max, ops).vis.pushed)
    requires FarApart(tolerance, Run(tolerance, max, ops).uv.pushed)
    requires Run(tolerance, max, ops).vis.evicted == Run(tolerance, max, ops).uv.evicted == []
    ensures var w := Run(tolerance, max, ops);
            EmittedPair(w, v, u)
            <==> v in w.vis.pushed && u in w.uv.pushed && -tolerance <= v.ptsNs - u.ptsNs <= tolerance
  {
    FarApartIsSpaced(tolerance, Run(tolerance, max, ops).vis.pushed);
    FarApartIsSpaced(tolerance, Run(tolerance, max, ops).uv.pushed);
    ExactlyTheClosePairs(tolerance, max, ops, v, u);
  }

  /** Whatever is evicted, a pair within the tolerance is emitted if both its frames are recent at some moment. */
  lemma RecentWithinToleranceEmitted(tolerance: int, max: nat, ops: seq<Op>, n: nat, a: int, b: int)
    requires NoDrain(ops) && n <= |ops|
    requires FarApart(tolerance, Run(tolerance, max, ops).vis.pushed)
    requires FarApart(tolerance, Run(tolerance, max, ops).uv.pushed)
    requires var w := Run(tolerance, max, ops[..n]);
             && 0 <= a && |w.vis.pushed| - max <= a < |w.vis.pushed|
             && 0 <= b && |w.uv.pushed| - max <= b < |w.uv.pushed|
             && -tolerance <= w.vis.pushed[a].ptsNs - w.uv.pushed[b].ptsNs <= tolerance
    ensures var w := Run(tolerance, max, ops[..n]);
            EmittedPair(Run(tolerance, max, ops), w.vis.pushed[a], w.uv.pushed[b])
  {
    FarApartIsSpaced(tolerance, Run(tolerance, max, ops).vis.pushed);
    FarApartIsSpaced(tolerance, Run(tolerance, max, ops).uv.pushed);
    ClosePairEmitted(tolerance, max, ops, n, a, b);
  }
}
