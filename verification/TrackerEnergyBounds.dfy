/**
 How fast cumulative energy can grow: bounds per matched frame, and what they mean for the levels.
 */
module TrackerEnergyBounds {
  import opened Geometry
  import opened TrackerSpec
  import EnergyEstimator
  import Kalman

  predicate EnergiesWithin(ops: seq<Op>, lo: real, hi: real) {
    forall i | 0 <= i < |ops| :: OpWithin(ops[i], lo, hi)
  }

  predicate OpWithin(op: Op, lo: real, hi: real) {
    op.Update? ==> forall k | 0 <= k < |op.energies| :: lo <= op.energies[k] <= hi
  }

  /** n frames of constant energy e add up to this. */
  function Total(n: int, e: real): real {
    n as real * Thirtieth(e)
  }

  /** A track of n frames, all with energies from lo to hi. */
  ghost predicate Within(cfg: Config, t: Track, lo: real, hi: real) {
    && t.filter.initialized && t.filter.x == t.smoothed && lo <= t.smoothed <= hi
    && t.frameCount >= 1
    && Total(t.frameCount, lo) <= t.cumulative <= Total(t.frameCount, hi)
    && (t.frameCount >= 2 ==>
          t.severity == Classify(cfg.thresholds, t.cumulative, t.smoothed, t.lastPts - t.startPts))
  }

  ghost predicate AllWithin(cfg: Config, tracks: seq<Track>, lo: real, hi: real) {
    forall i | 0 <= i < |tracks| :: Within(cfg, tracks[i], lo, hi)
  }

  lemma TotalOneMore(n: int, e: real)
    ensures Total(n + 1, e) == Total(n, e) + Thirtieth(e)
  {
  }

  lemma ThirtiethBetween(lo: real, x: real, hi: real)
    requires lo <= x <= hi
    ensures Thirtieth(lo) <= Thirtieth(x) <= Thirtieth(hi)
  {
  }

  lemma TouchWithin(cfg: Config, t: Track, pts: int, box: Box, e: real, lo: real, hi: real)
    requires Within(cfg, t, lo, hi) && Kalman.Sound(t.filter) && lo <= e <= hi
    ensures Within(cfg, Touch(cfg, t, pts, box, e), lo, hi)
  {
    Kalman.StepWithin(t.filter, e, lo, hi);
    ThirtiethBetween(lo, Kalman.Update(t.filter, e).x, hi);
    TotalOneMore(t.frameCount, lo);
    TotalOneMore(t.frameCount, hi);
  }

  lemma NewTrackWithin(cfg: Config, id: int, pts: int, box: Box, e: real, lo: real, hi: real)
    requires lo <= e <= hi
    ensures Within(cfg, NewTrack(id, pts, box, e), lo, hi)
  {
  }

  lemma UpdateWithin(cfg: Config, s: Tracker, pts: int, dets: seq<Box>, energies: seq<real>, lo: real, hi: real)
    requires AllSound(s.active) && |dets| <= |energies| && AllWithin(cfg, s.active, lo, hi)
    requires OpWithin(Update(pts, dets, energies), lo, hi)
    ensures AllWithin(cfg, AfterUpdate(cfg, s, pts, dets, energies).0.active, lo, hi)
  {
    var active := AfterUpdate(cfg, s, pts, dets, energies).0.active;
    forall j | 0 <= j < |active|
      ensures Within(cfg, active[j], lo, hi)
    {
      var d := ActiveOrigin(cfg, s, pts, dets, energies, j);
      if j < |s.active| && d >= 0 {
        TouchWithin(cfg, s.active[j], pts, dets[d], energies[d], lo, hi);
      } else if j >= |s.active| {
        NewTrackWithin(cfg, s.nextId + (j - |s.active|), pts, dets[d], energies[d], lo, hi);
      }
    }
  }

  lemma {:induction false} SweepWithin(cfg: Config, tracks: seq<Track>, pts: int, lo: real, hi: real)
    requires AllWithin(cfg, tracks, lo, hi)
    ensures AllWithin(cfg, Kept(cfg, tracks, pts), lo, hi) && AllWithin(cfg, Retired(cfg, tracks, pts), lo, hi)
  {
    if tracks == [] {
    } else {
      SweepWithin(cfg, tracks[..|tracks| - 1], pts, lo, hi);
      assert Within(cfg, tracks[|tracks| - 1], lo, hi);
    }
  }

  lemma ExpireWithin(cfg: Config, s: Tracker, pts: int, lo: real, hi: real)
    requires AllWithin(cfg, s.active, lo, hi) && AllWithin(cfg, s.completed, lo, hi)
             && AllWithin(cfg, s.trimmed, lo, hi)
    ensures var s' := AfterExpire(cfg, s, pts);
            AllWithin(cfg, s'.active, lo, hi) && AllWithin(cfg, s'.completed, lo, hi)
            && AllWithin(cfg, s'.trimmed, lo, hi)
  {
    SweepWithin(cfg, s.active, pts, lo, hi);
    var completed := s.completed + Retired(cfg, s.active, pts);
    assert AllWithin(cfg, completed, lo, hi);
  }

  /** Every track ever opened, wherever it is now, has cumulative energy between n*lo/30 and n*hi/30. */
  lemma {:induction false} RunWithin(cfg: Config, ops: seq<Op>, lo: real, hi: real)
    requires ValidOps(ops) && EnergiesWithin(ops, lo, hi)
    ensures var s := Run(cfg, ops);
            AllWithin(cfg, s.active, lo, hi) && AllWithin(cfg, s.completed, lo, hi) && AllWithin(cfg, s.trimmed, lo, hi)
  {
    if ops == [] {
    } else {
      var n := |ops| - 1;
      RunWithin(cfg, ops[..n], lo, hi);
      var s := Run(cfg, ops[..n]);
      assert OpWithin(ops[n], lo, hi);
      match ops[n]
      case Update(pts, dets, energies) => UpdateWithin(cfg, s, pts, dets, energies, lo, hi);
      case Expire(pts) => ExpireWithin(cfg, s, pts, lo, hi);
    }
  }

  lemma ThirtyTotals(n: int, e: real)
    ensures 30.0 * Total(n, e) == n as real * e
  {
  }

  /** The track has at least 30*L/hi frames. */
  predicate TakesFrames(t: Track, hi: real, L: real) {
    30.0 * L <= t.frameCount as real * hi
  }

  lemma TrackNeedsFrames(cfg: Config, t: Track, lo: real, hi: real, L: real)
    requires Within(cfg, t, lo, hi) && t.cumulative >= L
    ensures TakesFrames(t, hi, L)
  {
    ThirtyTotals(t.frameCount, hi);
  }

  /** With energies of at most hi no track reaches a cumulative threshold L before 30*L/hi frames. */
  lemma NotBeforeEnoughFrames(cfg: Config, ops: seq<Op>, lo: real, hi: real, L: real, i: int)
    requires ValidOps(ops) && EnergiesWithin(ops, lo, hi)
    requires 0 <= i < |Run(cfg, ops).active| && Run(cfg, ops).active[i].cumulative >= L
    ensures TakesFrames(Run(cfg, ops).active[i], hi, L)
  {
    RunWithin(cfg, ops, lo, hi);
    TrackNeedsFrames(cfg, Run(cfg, ops).active[i], lo, hi, L);
  }

  /** All energies of one call are those of boxes in images of width by height pixels. */
  ghost predicate FromImages(op: Op, width: nat, height: nat) {
    op.Update? ==> forall k | 0 <= k < |op.energies| :: FromBox(op.energies[k], width, height)
  }

  ghost predicate FromBox(energy: real, width: nat, height: nat) {
    exists box: Box, img: EnergyEstimator.Image ::
      img.Valid() && img.width == width && img.height == height && energy == EnergyEstimator.Energy(box, img)
  }

  lemma BoxBound(energy: real, width: nat, height: nat, hi: real)
    requires FromBox(energy, width, height) && hi == (width * height) as real
    ensures 0.0 <= energy <= hi
  {
    var box: Box, img: EnergyEstimator.Image :|
      img.Valid() && img.width == width && img.height == height && energy == EnergyEstimator.Energy(box, img);
    EnergyEstimator.EnergyWithinImage(box, img, width * height);
  }

  lemma ImageBounds(op: Op, width: nat, height: nat, hi: real)
    requires FromImages(op, width, height) && hi == (width * height) as real
    ensures OpWithin(op, 0.0, hi)
  {
    if op.Update? {
      forall k | 0 <= k < |op.energies|
        ensures 0.0 <= op.energies[k] <= hi
      {
        BoxBound(op.energies[k], width, height, hi);
      }
    }
  }

  lemma RunImageBounds(ops: seq<Op>, width: nat, height: nat, pixels: real)
    requires pixels == (width * height) as real && forall k | 0 <= k < |ops| :: FromImages(ops[k], width, height)
    ensures EnergiesWithin(ops, 0.0, pixels)
  {
    forall k | 0 <= k < |ops|
      ensures OpWithin(ops[k], 0.0, pixels)
    {
      ImageBounds(ops[k], width, height, pixels);
    }
  }

  /** So measured on width by height images, a cumulative energy of L takes 30*L/(width*height) frames. */
  lemma ImagesNeedFrames(cfg: Config, ops: seq<Op>, width: nat, height: nat, pixels: real, L: real, i: int)
    requires ValidOps(ops) && forall k | 0 <= k < |ops| :: FromImages(ops[k], width, height)
    requires pixels == (width * height) as real
    requires 0 <= i < |Run(cfg, ops).active| && Run(cfg, ops).active[i].cumulative >= L
    ensures TakesFrames(Run(cfg, ops).active[i], pixels, L)
  {
    RunImageBounds(ops, width, height, pixels);
    NotBeforeEnoughFrames(cfg, ops, 0.0, pixels, L, i);
  }

  /** Enough frames of at least lo make a sustained burn, whatever else the thresholds are. */
  lemma EnoughFramesSustain(cfg: Config, ops: seq<Op>, lo: real, hi: real, i: int)
    requires ValidOps(ops) && EnergiesWithin(ops, lo, hi) && 0 <= i < |Run(cfg, ops).active|
    requires Run(cfg, ops).active[i].frameCount >= 2
    requires Total(Run(cfg, ops).active[i].frameCount, lo) >= cfg.thresholds.level4Cumulative
    ensures Run(cfg, ops).active[i].severity >= 4
  {
    RunWithin(cfg, ops, lo, hi);
    assert Within(cfg, Run(cfg, ops).active[i], lo, hi);
  }
}
