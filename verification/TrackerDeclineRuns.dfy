/**
 Losing a level in runs of the tracker: no run undercuts quiet, and for a track that is alone some
 run does what quiet does.
 */
module TrackerDeclineRuns {
  import opened Geometry
  import opened TrackerSpec
  import opened TrackerLives
  import opened TrackerDecline
  import Kalman

  // ---------- In runs of the tracker ----------

  /** u is t, or t matched k more times and at a level at least that of k quiet matches. */
  predicate AtLeastRested(cfg: Config, t: Track, u: Track, now: int)
    requires Kalman.Sound(t.filter)
  {
    && u.frameCount >= t.frameCount
    && (u.frameCount == t.frameCount ==> u == t)
    && (u.frameCount > t.frameCount ==>
          Matchable(cfg, t.box) && u.severity >= Rested(cfg, t, now, u.frameCount - t.frameCount).severity)
  }

  lemma DescendantAtLeast(cfg: Config, t: Track, u: Track, now: int)
    requires Descends(cfg, t, u, now)
    ensures AtLeastRested(cfg, t, u, now)
  {
    var ms :| DescendsBy(cfg, t, ms, u, now);
    QuietIsLeast(cfg, t, ms, now);
  }

  /** In any run, a track matched k more times reports at least what k quiet matches would report. */
  lemma NeverBelowQuiet(cfg: Config, ops: seq<Op>, n: nat, now: int, i: int, j: int)
    requires Orderly(ops) && n <= |ops| && NotBefore(ops, n, now)
    requires 0 <= i < |Run(cfg, ops[..n]).active| && 0 <= j < |Run(cfg, ops).active|
    requires Run(cfg, ops[..n]).active[i].trackId == Run(cfg, ops).active[j].trackId
    ensures AtLeastRested(cfg, Run(cfg, ops[..n]).active[i], Run(cfg, ops).active[j], now)
  {
    SameTrackDescends(cfg, ops, n, now, i, j);
    DescendantAtLeast(cfg, Run(cfg, ops[..n]).active[i], Run(cfg, ops).active[j], now);
  }

  // ---------- Quiet in a tracker with any number of tracks ----------

  /** Fed the boxes of its own tracks, every track that can claims its own box. */
  lemma {:induction false} EachClaimsItself(boxes: seq<Box>, threshold: real, t: nat)
    requires t < |boxes| && threshold <= 1.0
    ensures Greedy(boxes, boxes, threshold)[t] == if Proper(boxes[t]) then t else -1
  {
    var m := Greedy(boxes, boxes, threshold);
    GreedyAt(boxes, boxes, threshold, t);
    forall s: nat | s < t
      ensures m[s] == if Proper(boxes[s]) then s else -1
    {
      EachClaimsItself(boxes, threshold, s);
    }
    if Proper(boxes[t]) {
      OwnBoxIsBest(boxes, m, t);
      assert Claims(boxes[t], boxes, Taken(m[..t]), threshold, t);
    } else {
      NoneForImproper(boxes[t], boxes, Taken(m[..t]), threshold);
    }
  }

  lemma OwnBoxIsBest(boxes: seq<Box>, m: seq<int>, t: nat)
    requires t < |boxes| == |m| && Proper(boxes[t])
    requires forall s: nat | s < t :: m[s] == if Proper(boxes[s]) then s else -1
    ensures IsBest(boxes[t], boxes, Taken(m[..t]), t) && IoU(boxes[t], boxes[t]) == 1.0
  {
    IoUSelf(boxes[t]);
    forall e | 0 <= e < |boxes| && e !in Taken(m[..t])
      ensures IoU(boxes[t], boxes[e]) < 1.0 || (IoU(boxes[t], boxes[e]) == 1.0 && t <= e)
    {
      IoUAtMostOne(boxes[t], boxes[e]);
      if e < t {
        assert m[..t][e] == m[e];
        IoUSymmetric(boxes[t], boxes[e]);
        ImproperOverlapsNothing(boxes[e], boxes[t]);
      }
    }
  }

  lemma NoneForImproper(box: Box, dets: seq<Box>, taken: set<int>, threshold: real)
    requires !Proper(box)
    ensures Choice(box, dets, taken, threshold) == -1
  {
    forall d | 0 <= d < |dets|
      ensures IoU(box, dets[d]) == 0.0
    {
      ImproperOverlapsNothing(box, dets[d]);
    }
  }

  function Zeros(n: nat): (es: seq<real>)
    ensures |es| == n
  {
    seq(n, _ => 0.0)
  }

  /** The call that detects every track where it is, with energy zero. */
  function QuietOp(s: Tracker, now: int): (op: Op)
    ensures op.Valid() && NonNegative(op) && op.pts == now
  {
    Update(now, Boxes(s.active), Zeros(|s.active|))
  }

  /** Such a call is a quiet match for every track that can be matched. */
  lemma QuietlyMatched(cfg: Config, s: Tracker, now: int, j: nat)
    requires AllSound(s.active) && j < |s.active| && Matchable(cfg, s.active[j].box)
    ensures var s' := Step(cfg, s, QuietOp(s, now)).0;
            j < |s'.active| && s'.active[j] == Touch(cfg, s.active[j], now, s.active[j].box, 0.0)
  {
    var boxes, zeros := Boxes(s.active), Zeros(|s.active|);
    var m := Greedy(boxes, boxes, cfg.iouMatch);
    GreedyInRange(boxes, boxes, cfg.iouMatch);
    EachClaimsItself(boxes, cfg.iouMatch, j);
    ActiveAt(cfg, s, now, boxes, zeros, m, j);
    TouchedAt(cfg, s.active, m, now, boxes, zeros, j);
  }

  /** n quiet calls after these. */
  ghost function QuietOps(cfg: Config, ops: seq<Op>, now: int, n: nat): (more: seq<Op>)
    requires ValidOps(ops)
    ensures |more| == n && ValidOps(ops + more)
    ensures forall k | 0 <= k < n :: NonNegative(more[k]) && more[k].pts == now
  {
    if n == 0 then
      assert ops + [] == ops;
      []
    else
      var before := QuietOps(cfg, ops, now, n - 1);
      var op := QuietOp(Run(cfg, ops + before), now);
      assert ops + (before + [op]) == (ops + before) + [op];
      before + [op]
  }

  /** Track j of the deque is as n quiet matches leave t. */
  ghost predicate RestsAt(cfg: Config, s: Tracker, j: nat, t: Track, now: int, n: nat) {
    && AllSound(s.active) && j < |s.active| && Kalman.Sound(t.filter)
    && s.active[j] == Rested(cfg, t, now, n) && s.active[j].box == t.box
  }

  lemma RestsOn(cfg: Config, s: Tracker, j: nat, t: Track, now: int, n: nat)
    requires RestsAt(cfg, s, j, t, now, n) && Matchable(cfg, t.box)
    ensures RestsAt(cfg, Step(cfg, s, QuietOp(s, now)).0, j, t, now, n + 1)
  {
    QuietlyMatched(cfg, s, now, j);
    RestedOneMore(cfg, t, now, n);
    StepKeepsSound(cfg, s, QuietOp(s, now));
  }

  lemma RunOneMore(cfg: Config, ops: seq<Op>, op: Op)
    requires ValidOps(ops) && op.Valid()
    ensures ValidOps(ops + [op]) && Run(cfg, ops + [op]) == Step(cfg, Run(cfg, ops), op).0
  {
    assert (ops + [op])[..|ops|] == ops;
  }

  lemma QuietOpsGrow(cfg: Config, ops: seq<Op>, now: int, n: nat)
    requires ValidOps(ops)
    ensures var more := QuietOps(cfg, ops, now, n);
            ops + more == if n == 0 then ops
                          else var before := ops + QuietOps(cfg, ops, now, n - 1);
                               before + [QuietOp(Run(cfg, before), now)]
  {
  }

  lemma {:induction false} QuietRun(cfg: Config, ops: seq<Op>, j: nat, t: Track, now: int, n: nat)
    requires ValidOps(ops) && RestsAt(cfg, Run(cfg, ops), j, t, now, 0) && Matchable(cfg, t.box)
    ensures RestsAt(cfg, Run(cfg, ops + QuietOps(cfg, ops, now, n)), j, t, now, n)
  {
    QuietOpsGrow(cfg, ops, now, n);
    if n == 0 {
    } else {
      var before := ops + QuietOps(cfg, ops, now, n - 1);
      QuietRun(cfg, ops, j, t, now, n - 1);
      RunOneMore(cfg, before, QuietOp(Run(cfg, before), now));
      RestsOn(cfg, Run(cfg, before), j, t, now, n - 1);
    }
  }

  // ---------- When some run loses a level ----------

  /** In the run ops + more the track has been matched again and reports less than `level`. */
  ghost predicate ReportsLess(cfg: Config, ops: seq<Op>, more: seq<Op>, t: Track, level: Level, j: int) {
    && Orderly(ops + more) && 0 <= j < |Run(cfg, ops + more).active|
    && var u := Run(cfg, ops + more).active[j];
       u.trackId == t.trackId && u.frameCount > t.frameCount && u.severity < level
  }

  lemma ReportsLessByQuiet(cfg: Config, ops: seq<Op>, more: seq<Op>, i: int, level: Level, j: int)
    requires Orderly(ops) && ops != [] && 0 <= i < |Run(cfg, ops).active|
    requires ReportsLess(cfg, ops, more, Run(cfg, ops).active[i], level, j)
    ensures Matchable(cfg, Run(cfg, ops).active[i].box)
    ensures CanLose(cfg, Run(cfg, ops).active[i], LastPts(ops), level)
  {
    var now := LastPts(ops);
    FirstPart(ops, more);
    OrderlyNotBefore(ops, more);
    NeverBelowQuiet(cfg, ops + more, |ops|, now, i, j);
    LessThanRested(cfg, Run(cfg, ops).active[i], Run(cfg, ops + more).active[j], now, level);
  }

  lemma LessThanRested(cfg: Config, t: Track, u: Track, now: int, level: Level)
    requires Kalman.Sound(t.filter) && AtLeastRested(cfg, t, u, now)
    requires u.frameCount > t.frameCount && u.severity < level
    ensures Matchable(cfg, t.box) && CanLose(cfg, t, now, level)
  {
    assert Rested(cfg, t, now, u.frameCount - t.frameCount).severity < level;
    LostIffQuietLoses(cfg, t, now, level);
  }

  lemma FirstPart(ops: seq<Op>, more: seq<Op>)
    ensures (ops + more)[..|ops|] == ops
  {
  }

  lemma OrderlyNotBefore(ops: seq<Op>, more: seq<Op>)
    requires Orderly(ops + more) && ops != []
    ensures NotBefore(ops + more, |ops|, LastPts(ops))
  {
    assert (ops + more)[|ops| - 1] == ops[|ops| - 1];
  }

  lemma QuietReportsLess(cfg: Config, ops: seq<Op>, i: nat, level: Level, n: nat)
    requires Orderly(ops) && ops != [] && i < |Run(cfg, ops).active| && n > 0
    requires Matchable(cfg, Run(cfg, ops).active[i].box)
    requires Rested(cfg, Run(cfg, ops).active[i], LastPts(ops), n).severity < level
    ensures ReportsLess(cfg, ops, QuietOps(cfg, ops, LastPts(ops), n), Run(cfg, ops).active[i], level, i)
  {
    QuietRun(cfg, ops, i, Run(cfg, ops).active[i], LastPts(ops), n);
    QuietIsOrderly(ops, QuietOps(cfg, ops, LastPts(ops), n));
  }

  lemma QuietIsOrderly(ops: seq<Op>, more: seq<Op>)
    requires Orderly(ops) && ops != [] && ValidOps(ops + more)
    requires forall k | 0 <= k < |more| :: NonNegative(more[k]) && more[k].pts == LastPts(ops)
    ensures Orderly(ops + more)
  {
  }

  /**
   Any track of any orderly run: some orderly continuation makes it report less than a level if and
   only if it can be matched at all and quiet loses the level.
   */
  lemma LostInSomeRun(cfg: Config, ops: seq<Op>, i: nat, level: Level)
    requires Orderly(ops) && ops != [] && i < |Run(cfg, ops).active|
    ensures var t := Run(cfg, ops).active[i];
            (exists more, j :: ReportsLess(cfg, ops, more, t, level, j))
            <==> Matchable(cfg, t.box) && CanLose(cfg, t, LastPts(ops), level)
  {
    var t, now := Run(cfg, ops).active[i], LastPts(ops);
    if more, j :| ReportsLess(cfg, ops, more, t, level, j) {
      ReportsLessByQuiet(cfg, ops, more, i, level, j);
    }
    if Matchable(cfg, t.box) && CanLose(cfg, t, now, level) {
      LostIffQuietLoses(cfg, t, now, level);
      var n: nat :| n > 0 && Rested(cfg, t, now, n).severity < level;
      QuietReportsLess(cfg, ops, i, level, n);
    }
  }

  // ---------- A level that is lost ----------

  /** The tracker's only track, which can be matched. */
  ghost predicate Alone(cfg: Config, s: Tracker, t: Track) {
    s.active == [t] && Kalman.Sound(t.filter) && Matchable(cfg, t.box)
  }

  lemma AloneClaims(box: Box, threshold: real)
    requires Proper(box) && threshold <= 1.0
    ensures Greedy([box], [box], threshold) == [0] && Unclaimed(Taken([0]), 1) == []
  {
    EachClaimsItself([box], threshold, 0);
    assert 0 in Taken([0]);
  }

  lemma AloneTouched(cfg: Config, t: Track, nextId: int, pts: int, energy: real)
    requires Kalman.Sound(t.filter)
    ensures AllSound([t]) && Choices([0], 1)
    ensures Touched(cfg, [t], [0], pts, [t.box], [energy]) == [Touch(cfg, t, pts, t.box, energy)]
    ensures NewTracks([], nextId, pts, [t.box], [energy]) == []
  {
  }

  /** A call that detects the only track's box matches it. */
  lemma AloneMatched(cfg: Config, s: Tracker, t: Track, pts: int, energy: real)
    requires Alone(cfg, s, t)
    ensures AfterUpdate(cfg, s, pts, [t.box], [energy]).0.active == [Touch(cfg, t, pts, t.box, energy)]
  {
    assert Boxes(s.active) == [t.box];
    AloneClaims(t.box, cfg.iouMatch);
    AloneTouched(cfg, t, s.nextId, pts, energy);
  }

  /** One more detection of the only track's box. */
  lemma AloneGoesOn(cfg: Config, ops: seq<Op>, t: Track, pts: int, energy: real)
    requires ValidOps(ops) && Alone(cfg, Run(cfg, ops), t)
    ensures var next := ops + [Update(pts, [t.box], [energy])];
            ValidOps(next) && Alone(cfg, Run(cfg, next), Touch(cfg, t, pts, t.box, energy))
  {
    RunOneMore(cfg, ops, Update(pts, [t.box], [energy]));
    AloneMatched(cfg, Run(cfg, ops), t, pts, energy);
    Kalman.StaysSound(t.filter, energy);
  }

  const UNIT: Box := Box(0.0, 0.0, 1.0, 1.0)

  const BURST: Config :=
    Config(Thresholds(1000.0, 1000.0, 1000.0, 1000.0, 1000.0, 100.0, 1000, 1000), 0.3, 100, 64)

  const QUIET: seq<Op> := [Update(0, [UNIT], [0.0])]

  const LOUD: seq<Op> := QUIET + [Update(1, [UNIT], [111.0])]

  const QUIET_AGAIN: seq<Op> := LOUD + [Update(2, [UNIT], [0.0])]

  lemma FirstCall(cfg: Config, box: Box, pts: int, energy: real)
    requires Proper(box) && cfg.iouMatch <= 1.0
    ensures Alone(cfg, Run(cfg, [Update(pts, [box], [energy])]), NewTrack(1, pts, box, energy))
  {
    FirstTrack(cfg, pts, box, energy);
    RunOneMore(cfg, [], Update(pts, [box], [energy]));
    assert [] + [Update(pts, [box], [energy])] == [Update(pts, [box], [energy])];
    Kalman.StaysSound(NEW_FILTER, energy);
  }

  lemma BurstAndQuiet() returns (loud: Track, quiet: Track)
    ensures ValidOps(LOUD) && ValidOps(QUIET_AGAIN)
    ensures Alone(BURST, Run(BURST, LOUD), loud) && Alone(BURST, Run(BURST, QUIET_AGAIN), quiet)
    ensures loud.trackId == quiet.trackId && loud.severity == 5 && quiet.severity == 1
  {
    FirstCall(BURST, UNIT, 0, 0.0);
    var t0 := NewTrack(1, 0, UNIT, 0.0);
    AloneGoesOn(BURST, QUIET, t0, 1, 111.0);
    loud := Touch(BURST, t0, 1, UNIT, 111.0);
    AloneGoesOn(BURST, LOUD, loud, 2, 0.0);
    quiet := Touch(BURST, loud, 2, UNIT, 0.0);
    BurstLevels();
  }

  lemma BurstOrderly()
    ensures Orderly(LOUD) && Orderly(QUIET_AGAIN)
  {
  }

  /** Three calls on one box: a burst makes its track fatal, and one quiet match undoes it. */
  lemma LevelFiveLost()
    ensures Orderly(LOUD) && Orderly(QUIET_AGAIN)
    ensures var was, now := Run(BURST, LOUD).active, Run(BURST, QUIET_AGAIN).active;
            && |was| == |now| == 1 && was[0].trackId == now[0].trackId
            && was[0].severity == 5 && now[0].severity == 1
  {
    BurstOrderly();
    var loud, quiet := BurstAndQuiet();
  }

  lemma FirstTrack(cfg: Config, pts: int, box: Box, energy: real)
    ensures AfterUpdate(cfg, EMPTY, pts, [box], [energy]).0.active == [NewTrack(1, pts, box, energy)]
  {
    assert Boxes([]) == [];
    assert Taken([]) == {};
    FirstIsNew();
    OnlyNew(cfg, pts, box, energy);
  }

  lemma FirstIsNew()
    ensures Unclaimed({}, 1) == [0]
  {
    assert Unclaimed({}, 0) == [];
  }

  lemma OnlyNew(cfg: Config, pts: int, box: Box, energy: real)
    ensures AllSound([]) && Touched(cfg, [], [], pts, [box], [energy]) == []
    ensures NewTracks([0], 1, pts, [box], [energy]) == [NewTrack(1, pts, box, energy)]
  {
    NewTracksAt([0], 1, pts, [box], [energy], 0);
  }

  const LOUD_FILTER: Kalman.Filter := Kalman.Filter(101.0, 10.1 / 111.0, 0.01, 0.1, true)

  lemma LoudFilter()
    ensures Kalman.Update(Kalman.Update(NEW_FILTER, 0.0), 111.0) == LOUD_FILTER
  {
    assert Kalman.Gain(Kalman.Update(NEW_FILTER, 0.0)) == 101.0 / 111.0;
  }

  lemma QuietFilter()
    ensures 0.0 <= Kalman.Update(LOUD_FILTER, 0.0).x <= 90.0
  {
    Kalman.GainBounds(LOUD_FILTER);
    var k := Kalman.Gain(LOUD_FILTER);
    assert k > 1.0 / 11.0;
  }

  lemma BurstLevels()
    ensures var t0 := NewTrack(1, 0, UNIT, 0.0);
            && Kalman.Sound(t0.filter)
            && var t1 := Touch(BURST, t0, 1, UNIT, 111.0);
               && Kalman.Sound(t1.filter) && t1.severity == 5
               && Touch(BURST, t1, 2, UNIT, 0.0).severity == 1
  {
    LoudFilter();
    QuietFilter();
  }
}
