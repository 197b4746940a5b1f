/**
 More energy never means less: two runs that see the same boxes at the same times, the second with
 energies at least those of the first, differ only in energies and severities, and only upwards.
 */
module TrackerEnergyOrder {
  import opened Geometry
  import opened TrackerSpec
  import Kalman

  /** u is t, but for energies and a severity that are at least t's. */
  ghost predicate AtMost(t: Track, u: Track) {
    && u == t.(instant := u.instant, smoothed := u.smoothed, cumulative := u.cumulative,
               filter := t.filter.(x := u.filter.x), severity := u.severity)
    && t.instant <= u.instant && t.smoothed <= u.smoothed && t.cumulative <= u.cumulative
    && t.filter.x <= u.filter.x && t.severity <= u.severity
  }

  ghost predicate AllAtMost(ts: seq<Track>, us: seq<Track>) {
    |ts| == |us| && forall i | 0 <= i < |ts| :: AtMost(ts[i], us[i])
  }

  ghost predicate TrackersAtMost(s: Tracker, r: Tracker) {
    && s.nextId == r.nextId
    && AllAtMost(s.active, r.active) && AllAtMost(s.completed, r.completed) && AllAtMost(s.trimmed, r.trimmed)
  }

  /** The same identity, box, count and duration; energies and severity at least as high. */
  ghost predicate UpdateAtMost(a: TrackUpdate, b: TrackUpdate) {
    && b == a.(instant := b.instant, smoothed := b.smoothed, cumulative := b.cumulative,
               severity := b.severity, escalated := b.escalated)
    && a.instant <= b.instant && a.smoothed <= b.smoothed && a.cumulative <= b.cumulative && a.severity <= b.severity
  }

  ghost predicate UpdatesAtMost(xs: seq<TrackUpdate>, ys: seq<TrackUpdate>) {
    |xs| == |ys| && forall i | 0 <= i < |xs| :: UpdateAtMost(xs[i], ys[i])
  }

  /** The two calls agree but for the energies, which are pointwise ordered. */
  ghost predicate OpAtMost(a: Op, b: Op) {
    match a
    case Update(pts, dets, energies) =>
      b.Update? && b.pts == pts && b.dets == dets && PointwiseLe(energies, b.energies)
    case Expire(pts) => b == a
  }

  /** The classifier never answers lower for more energy or a longer life. */
  lemma ClassifyMonotone(th: Thresholds, c: real, c': real, s: real, s': real, d: int, d': int)
    requires c <= c' && s <= s' && d <= d'
    ensures Classify(th, c, s, d) <= Classify(th, c', s', d')
  {
  }

  lemma ThirtiethMonotone(a: real, b: real)
    requires a <= b
    ensures Thirtieth(a) <= Thirtieth(b)
  {
  }

  lemma TouchMonotone(cfg: Config, t: Track, u: Track, pts: int, box: Box, e: real, f: real)
    requires AtMost(t, u) && Kalman.Sound(t.filter) && Kalman.Sound(u.filter) && e <= f
    ensures AtMost(Touch(cfg, t, pts, box, e), Touch(cfg, u, pts, box, f))
  {
    Kalman.UpdateMonotone(t.filter, u.filter, e, f);
    var a, b := Kalman.Update(t.filter, e), Kalman.Update(u.filter, f);
    ThirtiethMonotone(a.x, b.x);
    ClassifyMonotone(cfg.thresholds, t.cumulative + Thirtieth(a.x), u.cumulative + Thirtieth(b.x), a.x, b.x,
                     pts - t.startPts, pts - u.startPts);
  }

  ghost predicate PointwiseLe(es: seq<real>, fs: seq<real>) {
    |es| == |fs| && forall i | 0 <= i < |es| :: es[i] <= fs[i]
  }

  lemma TouchedMonotone(cfg: Config, ts: seq<Track>, us: seq<Track>, m: seq<int>, pts: int, dets: seq<Box>,
                        es: seq<real>, fs: seq<real>)
    requires AllAtMost(ts, us) && AllSound(ts) && AllSound(us) && PointwiseLe(es, fs)
    requires |m| == |ts| && Choices(m, |dets|) && |dets| <= |es|
    ensures AllAtMost(Touched(cfg, ts, m, pts, dets, es), Touched(cfg, us, m, pts, dets, fs))
  {
    var a, b := Touched(cfg, ts, m, pts, dets, es), Touched(cfg, us, m, pts, dets, fs);
    forall t | 0 <= t < |ts|
      ensures AtMost(a[t], b[t])
    {
      assert AtMost(ts[t], us[t]);
      if m[t] >= 0 {
        TouchMonotone(cfg, ts[t], us[t], pts, dets[m[t]], es[m[t]], fs[m[t]]);
      }
    }
  }

  lemma NewTracksMonotone(news: seq<int>, nextId: int, pts: int, dets: seq<Box>, es: seq<real>, fs: seq<real>)
    requires PointwiseLe(es, fs) && |dets| <= |es|
    requires forall k | 0 <= k < |news| :: 0 <= news[k] < |dets|
    ensures AllAtMost(NewTracks(news, nextId, pts, dets, es), NewTracks(news, nextId, pts, dets, fs))
  {
  }

  lemma UpdatesMonotone(was: seq<Track>, was': seq<Track>, now: seq<Track>, now': seq<Track>, m: seq<int>,
                        fresh1: seq<Track>, fresh2: seq<Track>)
    requires |was| == |was'| == |now| == |m| && AllAtMost(now, now') && AllAtMost(fresh1, fresh2)
    ensures UpdatesAtMost(MatchedUpdates(was, now, m, |m|) + NewUpdates(fresh1),
                          MatchedUpdates(was', now', m, |m|) + NewUpdates(fresh2))
  {
    var ts := MatchedTracks(m, |m|);
    forall k | 0 <= k < |ts|
      ensures UpdateAtMost(UpdateOf(was[ts[k]], now[ts[k]]), UpdateOf(was'[ts[k]], now'[ts[k]]))
    {
      assert AtMost(now[ts[k]], now'[ts[k]]);
    }
    forall k | 0 <= k < |fresh1|
      ensures UpdateAtMost(UpdateOfNew(fresh1[k]), UpdateOfNew(fresh2[k]))
    {
      assert AtMost(fresh1[k], fresh2[k]);
    }
  }

  lemma SameBoxes(ts: seq<Track>, us: seq<Track>)
    requires AllAtMost(ts, us)
    ensures Boxes(ts) == Boxes(us)
  {
  }

  lemma ConcatAtMost(a: seq<Track>, b: seq<Track>, c: seq<Track>, d: seq<Track>)
    requires AllAtMost(a, b) && AllAtMost(c, d)
    ensures AllAtMost(a + c, b + d)
  {
  }

  /** One call: the matching ignores energies, so the two calls choose alike, and what they compute is ordered. */
  lemma UpdateStepMonotone(cfg: Config, s: Tracker, r: Tracker, pts: int, dets: seq<Box>, es: seq<real>, fs: seq<real>)
    requires TrackersAtMost(s, r) && AllSound(s.active) && AllSound(r.active)
    requires |dets| <= |es| && PointwiseLe(es, fs)
    ensures Greedy(Boxes(s.active), dets, cfg.iouMatch) == Greedy(Boxes(r.active), dets, cfg.iouMatch)
    ensures var (s', us) := AfterUpdate(cfg, s, pts, dets, es);
            var (r', vs) := AfterUpdate(cfg, r, pts, dets, fs);
            TrackersAtMost(s', r') && UpdatesAtMost(us, vs)
  {
    SameBoxes(s.active, r.active);
    var m := Greedy(Boxes(s.active), dets, cfg.iouMatch);
    GreedyInRange(Boxes(s.active), dets, cfg.iouMatch);
    var news := Unclaimed(Taken(m), |dets|);
    TouchedMonotone(cfg, s.active, r.active, m, pts, dets, es, fs);
    NewTracksMonotone(news, s.nextId, pts, dets, es, fs);
    var now, now' := Touched(cfg, s.active, m, pts, dets, es), Touched(cfg, r.active, m, pts, dets, fs);
    var fresh1, fresh2 := NewTracks(news, s.nextId, pts, dets, es), NewTracks(news, s.nextId, pts, dets, fs);
    UpdatesMonotone(s.active, r.active, now, now', m, fresh1, fresh2);
    ConcatAtMost(now, now', fresh1, fresh2);
  }

  lemma {:induction false} SweepMonotone(cfg: Config, ts: seq<Track>, us: seq<Track>, pts: int)
    requires AllAtMost(ts, us)
    ensures AllAtMost(Kept(cfg, ts, pts), Kept(cfg, us, pts)) && AllAtMost(Retired(cfg, ts, pts), Retired(cfg, us, pts))
  {
    if ts == [] {
    } else {
      var n := |ts| - 1;
      SweepMonotone(cfg, ts[..n], us[..n], pts);
      assert AtMost(ts[n], us[n]);
    }
  }

  lemma ExpireStepMonotone(cfg: Config, s: Tracker, r: Tracker, pts: int)
    requires TrackersAtMost(s, r)
    ensures TrackersAtMost(AfterExpire(cfg, s, pts), AfterExpire(cfg, r, pts))
  {
    SweepMonotone(cfg, s.active, r.active, pts);
  }

  /** Over any run: same matches, same ids, same expiries; energies and severities at least as high. */
  lemma {:induction false} RunMonotone(cfg: Config, ops: seq<Op>, ops': seq<Op>)
    requires ValidOps(ops) && ValidOps(ops') && |ops| == |ops'|
    requires forall i | 0 <= i < |ops| :: OpAtMost(ops[i], ops'[i])
    ensures TrackersAtMost(Run(cfg, ops), Run(cfg, ops'))
  {
    if ops == [] {
    } else {
      var n := |ops| - 1;
      RunMonotone(cfg, ops[..n], ops'[..n]);
      assert OpAtMost(ops[n], ops'[n]);
      match ops[n]
      case Update(pts, dets, energies) =>
        UpdateStepMonotone(cfg, Run(cfg, ops[..n]), Run(cfg, ops'[..n]), pts, dets, energies, ops'[n].energies);
      case Expire(pts) =>
        ExpireStepMonotone(cfg, Run(cfg, ops[..n]), Run(cfg, ops'[..n]), pts);
    }
  }

  /** And so at every update of the run: the i-th call returns ordered updates. */
  lemma EveryUpdateMonotone(cfg: Config, ops: seq<Op>, ops': seq<Op>, i: nat)
    requires ValidOps(ops) && ValidOps(ops') && |ops| == |ops'| && i < |ops|
    requires forall k | 0 <= k < |ops| :: OpAtMost(ops[k], ops'[k])
    ensures UpdatesAtMost(Step(cfg, Run(cfg, ops[..i]), ops[i]).1, Step(cfg, Run(cfg, ops'[..i]), ops'[i]).1)
  {
    RunMonotone(cfg, ops[..i], ops'[..i]);
    assert OpAtMost(ops[i], ops'[i]);
    if ops[i].Update? {
      UpdateStepMonotone(cfg, Run(cfg, ops[..i]), Run(cfg, ops'[..i]), ops[i].pts, ops[i].dets, ops[i].energies,
                         ops'[i].energies);
    }
  }
}
