/**
 Severity along the life of a track. Energies are non-negative, as the estimator returns them, and
 time does not run backwards.
 */
module TrackerSeverity {
  import opened TrackerSpec
  import opened Geometry
  import opened RealArithmetic
  import opened TrackerLives
  import Kalman

  /** The level that cumulative energy and duration alone imply. */
  function Floor(th: Thresholds, cumulative: real, duration: int): Level {
    if cumulative >= th.level5Cumulative || duration >= th.level5DurationNs then 5
    else if cumulative >= th.level4Cumulative || duration >= th.level4DurationNs then 4
    else if cumulative >= th.level3Cumulative then 3
    else if cumulative >= th.level2Cumulative then 2
    else 1
  }

  function FloorOf(cfg: Config, t: Track): Level {
    Floor(cfg.thresholds, t.cumulative, t.lastPts - t.startPts)
  }

  /** Whatever the order of the thresholds, the implied level grows with both arguments. */
  lemma FloorMonotone(th: Thresholds, c: real, c': real, d: int, d': int)
    requires c <= c' && d <= d'
    ensures Floor(th, c, d) <= Floor(th, c', d')
  {
  }

  /** The classifier answers at least the floor; an answer of 2 or 4 is exactly the floor. */
  lemma ClassifyAboveFloor(th: Thresholds, c: real, s: real, d: int)
    ensures Classify(th, c, s, d) >= Floor(th, c, d)
    ensures Classify(th, c, s, d) == 2 || Classify(th, c, s, d) == 4 ==> Classify(th, c, s, d) == Floor(th, c, d)
  {
  }

  // ---------- What every track of the deque satisfies ----------

  ghost predicate Sane(cfg: Config, t: Track, now: int) {
    && t.filter.initialized && t.filter.x == t.smoothed && t.smoothed >= 0.0 && t.cumulative >= 0.0
    && t.startPts <= t.lastPts <= now && t.frameCount >= 1
    && t.severity == if t.frameCount == 1 then 1
                     else Classify(cfg.thresholds, t.cumulative, t.smoothed, t.lastPts - t.startPts)
  }

  ghost predicate AllSane(cfg: Config, tracks: seq<Track>, now: int) {
    forall i | 0 <= i < |tracks| :: Sane(cfg, tracks[i], now)
  }

  lemma TouchSane(cfg: Config, t: Track, pts: int, box: Box, e: real, now: int)
    requires Sane(cfg, t, now) && Kalman.Sound(t.filter) && e >= 0.0 && now <= pts
    ensures Sane(cfg, Touch(cfg, t, pts, box, e), pts)
  {
    var u := Touch(cfg, t, pts, box, e);
    Kalman.StepWithin(t.filter, e, 0.0, if t.filter.x < e then e else t.filter.x);
    MulLe(1.0 / 30.0, 0.0, u.smoothed);
  }

  lemma NewTrackSane(cfg: Config, id: int, pts: int, box: Box, e: real)
    requires e >= 0.0
    ensures Sane(cfg, NewTrack(id, pts, box, e), pts)
  {
  }

  lemma UpdateSane(cfg: Config, s: Tracker, pts: int, dets: seq<Box>, energies: seq<real>, now: int, j: int)
    requires AllSound(s.active) && AllSane(cfg, s.active, now) && |dets| <= |energies|
    requires NonNegative(Update(pts, dets, energies)) && now <= pts
    requires 0 <= j < |AfterUpdate(cfg, s, pts, dets, energies).0.active|
    ensures Sane(cfg, AfterUpdate(cfg, s, pts, dets, energies).0.active[j], pts)
  {
    var d := ActiveOrigin(cfg, s, pts, dets, energies, j);
    if j < |s.active| && d >= 0 {
      TouchSane(cfg, s.active[j], pts, dets[d], energies[d], now);
    } else if j >= |s.active| {
      NewTrackSane(cfg, s.nextId + (j - |s.active|), pts, dets[d], energies[d]);
    }
  }

  lemma StepSane(cfg: Config, s: Tracker, op: Op, now: int)
    requires AllSound(s.active) && AllSane(cfg, s.active, now)
    requires op.Valid() && NonNegative(op) && now <= op.pts
    ensures AllSane(cfg, Step(cfg, s, op).0.active, op.pts)
  {
    forall j | 0 <= j < |Step(cfg, s, op).0.active|
      ensures Sane(cfg, Step(cfg, s, op).0.active[j], op.pts)
    {
      match op
      case Update(pts, dets, energies) =>
        UpdateSane(cfg, s, pts, dets, energies, now, j);
      case Expire(pts) =>
        var i := KeptFrom(cfg, s.active, pts, j);
    }
  }

  lemma LaterSane(cfg: Config, tracks: seq<Track>, now: int, later: int)
    requires AllSane(cfg, tracks, now) && now <= later
    ensures AllSane(cfg, tracks, later)
  {
  }

  predicate NoLaterThan(ops: seq<Op>, now: int) {
    forall i | 0 <= i < |ops| :: ops[i].pts <= now
  }

  lemma {:induction false} RunSane(cfg: Config, ops: seq<Op>, now: int)
    requires Orderly(ops) && NoLaterThan(ops, now)
    ensures AllSane(cfg, Run(cfg, ops).active, now)
  {
    if ops == [] {
    } else {
      var n := |ops| - 1;
      OrderlyPrefix(ops, n);
      RunSane(cfg, ops[..n], ops[n].pts);
      StepSane(cfg, Run(cfg, ops[..n]), ops[n], ops[n].pts);
      LaterSane(cfg, Run(cfg, ops).active, ops[n].pts, now);
    }
  }

  // ---------- Whole lives ----------

  /** u is t, or t grown older and classified anew. */
  predicate Grown(cfg: Config, t: Track, u: Track, now: int) {
    && u.filter.initialized && u.filter.x == u.smoothed && u.smoothed >= 0.0
    && u.startPts == t.startPts && u.cumulative >= t.cumulative
    && (u == t || (u.lastPts >= now
                   && u.severity == Classify(cfg.thresholds, u.cumulative, u.smoothed, u.lastPts - u.startPts)))
  }

  lemma TouchGrown(cfg: Config, t: Track, u: Track, m: Match, now: int)
    requires Grown(cfg, t, u, now) && Kalman.Sound(u.filter) && m.energy >= 0.0 && m.pts >= now
    ensures Grown(cfg, t, Touch(cfg, u, m.pts, m.box, m.energy), now)
  {
    var v := Touch(cfg, u, m.pts, m.box, m.energy);
    Kalman.StepWithin(u.filter, m.energy, 0.0, if u.filter.x < m.energy then m.energy else u.filter.x);
    MulLe(1.0 / 30.0, 0.0, v.smoothed);
  }

  lemma {:induction false} AfterGrown(cfg: Config, t: Track, ms: seq<Match>, now: int)
    requires Sane(cfg, t, now) && Kalman.Sound(t.filter) && Possible(ms, now)
    ensures Grown(cfg, t, After(cfg, t, ms), now)
  {
    if ms == [] {
    } else {
      var n := |ms| - 1;
      AfterGrown(cfg, t, ms[..n], now);
      TouchGrown(cfg, t, After(cfg, t, ms[..n]), ms[n], now);
    }
  }

  /**
   u is a later stage of t. The level implied by cumulative energy and duration has not fallen, and
   bounds the severity from the second frame on; a level that was its floor, as 2 and 4 always are,
   is not followed by a lower one.
   */
  predicate KeepsFloor(cfg: Config, t: Track, u: Track) {
    && FloorOf(cfg, t) <= FloorOf(cfg, u)
    && (u.frameCount >= 2 ==> u.severity >= FloorOf(cfg, u))
    && (t.severity <= FloorOf(cfg, t) ==> u.severity >= t.severity)
    && (t.severity == 2 || t.severity == 4 ==> u.severity >= t.severity)
  }

  lemma DescendantKeepsFloor(cfg: Config, t: Track, u: Track, now: int)
    requires Sane(cfg, t, now) && Descends(cfg, t, u, now)
    ensures KeepsFloor(cfg, t, u)
  {
    var ms :| DescendsBy(cfg, t, ms, u, now);
    AfterGrown(cfg, t, ms, now);
    GrownKeepsFloor(cfg, t, u, now);
  }

  lemma GrownKeepsFloor(cfg: Config, t: Track, u: Track, now: int)
    requires Sane(cfg, t, now) && Grown(cfg, t, u, now)
    ensures KeepsFloor(cfg, t, u)
  {
    FloorMonotone(cfg.thresholds, t.cumulative, u.cumulative, t.lastPts - t.startPts, u.lastPts - u.startPts);
    ClassifyAboveFloor(cfg.thresholds, u.cumulative, u.smoothed, u.lastPts - u.startPts);
    ClassifyAboveFloor(cfg.thresholds, t.cumulative, t.smoothed, t.lastPts - t.startPts);
  }

  lemma OrderlyTimes(ops: seq<Op>, n: nat)
    requires Orderly(ops) && 0 < n <= |ops|
    ensures NoLaterThan(ops[..n], ops[n - 1].pts) && NotBefore(ops, n, ops[n - 1].pts)
  {
  }

  lemma NothingAtFirst(cfg: Config, ops: seq<Op>, n: nat)
    requires ValidOps(ops) && n <= |ops| && Run(cfg, ops[..n]).active != []
    ensures n > 0
  {
    assert ops[..0] == [];
  }

  /** The same track seen at two moments of a run. */
  lemma SeverityNeverFallsBelowFloor(cfg: Config, ops: seq<Op>, n: nat, i: int, j: int)
    requires Orderly(ops) && n <= |ops|
    requires 0 <= i < |Run(cfg, ops[..n]).active| && 0 <= j < |Run(cfg, ops).active|
    requires Run(cfg, ops[..n]).active[i].trackId == Run(cfg, ops).active[j].trackId
    ensures KeepsFloor(cfg, Run(cfg, ops[..n]).active[i], Run(cfg, ops).active[j])
  {
    NothingAtFirst(cfg, ops, n);
    var now := ops[n - 1].pts;
    OrderlyTimes(ops, n);
    OrderlyPrefix(ops, n);
    RunSane(cfg, ops[..n], now);
    SameTrackDescends(cfg, ops, n, now, i, j);
    DescendantKeepsFloor(cfg, Run(cfg, ops[..n]).active[i], Run(cfg, ops).active[j], now);
  }
}
