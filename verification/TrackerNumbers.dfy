/**
 What a call of the tracker does to a track, in plain numbers: which fields change, and by how much.
 */
module TrackerNumbers {
  import opened Geometry
  import opened TrackerSpec
  import Kalman
  import TrackerConservation

  // ---------- The level ----------

  predicate Reaches5(th: Thresholds, cumulative: real, smoothed: real, duration: int) {
    cumulative >= th.level5Cumulative || smoothed >= th.level5Instant || duration >= th.level5DurationNs
  }

  predicate Reaches4(th: Thresholds, cumulative: real, duration: int) {
    cumulative >= th.level4Cumulative || duration >= th.level4DurationNs
  }

  predicate Reaches3(th: Thresholds, cumulative: real, smoothed: real) {
    cumulative >= th.level3Cumulative || smoothed >= th.level3Instant
  }

  /** The level is the highest one of which some threshold is reached, for each level on its own. */
  predicate Graded(th: Thresholds, cumulative: real, smoothed: real, duration: int, level: Level) {
    && (level == 5 <==> Reaches5(th, cumulative, smoothed, duration))
    && (level >= 4 <==> Reaches5(th, cumulative, smoothed, duration) || Reaches4(th, cumulative, duration))
    && (level >= 3 <==> || Reaches5(th, cumulative, smoothed, duration) || Reaches4(th, cumulative, duration)
                        || Reaches3(th, cumulative, smoothed))
    && (level >= 2 <==> || Reaches5(th, cumulative, smoothed, duration) || Reaches4(th, cumulative, duration)
                        || Reaches3(th, cumulative, smoothed) || cumulative >= th.level2Cumulative)
  }

  /** Exactly one level is right, and the classifier finds it. */
  lemma ClassifyGrades(th: Thresholds, cumulative: real, smoothed: real, duration: int, level: Level)
    ensures Graded(th, cumulative, smoothed, duration, level) <==> level == Classify(th, cumulative, smoothed, duration)
  {
  }

  // ---------- One track ----------

  /** t' is t after it has been matched to a detection. */
  predicate Advanced(th: Thresholds, t: Track, t': Track, pts: int, box: Box, energy: real) {
    && t'.trackId == t.trackId && t'.streamIndex == t.streamIndex && t'.startPts == t.startPts && t'.active == t.active
    && t'.lastPts == pts && t'.frameCount == t.frameCount + 1 && t'.box == box && t'.instant == energy
    && Kalman.Corrects(t.filter, t'.filter, energy) && t'.smoothed == t'.filter.x
    && 30.0 * (t'.cumulative - t.cumulative) == t'.smoothed
    && Graded(th, t'.cumulative, t'.smoothed, pts - t.startPts, t'.severity)
  }

  /** t has just been opened for a detection. */
  predicate Opened(t: Track, id: int, pts: int, box: Box, energy: real) {
    && t.trackId == id && t.streamIndex == 0 && t.startPts == t.lastPts == pts && t.frameCount == 1 && t.active
    && t.box == box && t.instant == t.smoothed == energy && 30.0 * t.cumulative == energy && t.severity == 1
    && t.filter.x == energy && t.filter.p == 1.0 && t.filter.q == 0.01 && t.filter.r == 0.1 && t.filter.initialized
  }

  lemma TouchAdvances(cfg: Config, t: Track, pts: int, box: Box, energy: real)
    requires Kalman.Sound(t.filter)
    ensures Advanced(cfg.thresholds, t, Touch(cfg, t, pts, box, energy), pts, box, energy)
  {
    Kalman.UpdateCorrects(t.filter, energy);
    var t' := Touch(cfg, t, pts, box, energy);
    ClassifyGrades(cfg.thresholds, t'.cumulative, t'.smoothed, pts - t.startPts, t'.severity);
  }

  lemma NewTrackOpened(id: int, pts: int, box: Box, energy: real)
    ensures Opened(NewTrack(id, pts, box, energy), id, pts, box, energy)
  {
  }

  // ---------- One update ----------

  /**
   What the deque holds at j after a call, if d is the detection that track answers: an old track as it
   was, an old track advanced, or a track just opened under the next id but j - |before|.
   */
  predicate Explained(cfg: Config, s: Tracker, pts: int, dets: seq<Box>, energies: seq<real>, j: int, d: int, t: Track)
    requires |dets| <= |energies| && 0 <= j && -1 <= d < |dets|
  {
    if j < |s.active| then
      if d < 0 then t == s.active[j]
      else
        && Advanced(cfg.thresholds, s.active[j], t, pts, dets[d], energies[d])
        && IoU(s.active[j].box, dets[d]) >= cfg.iouMatch && IoU(s.active[j].box, dets[d]) > 0.0
    else d >= 0 && Opened(t, s.nextId + (j - |s.active|), pts, dets[d], energies[d])
  }

  lemma OriginExplains(cfg: Config, s: Tracker, pts: int, dets: seq<Box>, energies: seq<real>, j: int, d: int, t: Track)
    requires AllSound(s.active) && |dets| <= |energies| && 0 <= j && Origin(cfg, s, pts, dets, energies, j, d, t)
    ensures Explained(cfg, s, pts, dets, energies, j, d, t)
  {
    if j >= |s.active| {
      NewTrackOpened(s.nextId + (j - |s.active|), pts, dets[d], energies[d]);
    } else if d >= 0 {
      TouchAdvances(cfg, s.active[j], pts, dets[d], energies[d]);
    }
  }

  /** Every track of the deque after a call is explained by at most one detection. */
  lemma EveryTrackExplained(cfg: Config, s: Tracker, pts: int, dets: seq<Box>, energies: seq<real>, j: int)
    returns (d: int)
    requires AllSound(s.active) && |dets| <= |energies|
    requires 0 <= j < |AfterUpdate(cfg, s, pts, dets, energies).0.active|
    ensures -1 <= d < |dets|
    ensures Explained(cfg, s, pts, dets, energies, j, d, AfterUpdate(cfg, s, pts, dets, energies).0.active[j])
  {
    d := ActiveOrigin(cfg, s, pts, dets, energies, j);
    OriginExplains(cfg, s, pts, dets, energies, j, d, AfterUpdate(cfg, s, pts, dets, energies).0.active[j]);
  }

  ghost predicate HasOrigin(cfg: Config, s: Tracker, pts: int, dets: seq<Box>, energies: seq<real>, j: int, t: Track)
    requires |dets| <= |energies| && 0 <= j
  {
    exists d | -1 <= d < |dets| :: Explained(cfg, s, pts, dets, energies, j, d, t)
  }

  /** The deque after a call: the old tracks first and the opened ones behind them, and each of them explained. */
  ghost predicate AllExplained(cfg: Config, s: Tracker, s': Tracker, pts: int, dets: seq<Box>, energies: seq<real>)
    requires |dets| <= |energies|
  {
    && |s'.active| == |s.active| + (s'.nextId - s.nextId) && s'.nextId >= s.nextId
    && forall j | 0 <= j < |s'.active| :: HasOrigin(cfg, s, pts, dets, energies, j, s'.active[j])
  }

  lemma DequeGrows(cfg: Config, s: Tracker, pts: int, dets: seq<Box>, energies: seq<real>)
    requires AllSound(s.active) && |dets| <= |energies|
    ensures var s' := AfterUpdate(cfg, s, pts, dets, energies).0;
            |s'.active| == |s.active| + (s'.nextId - s.nextId) && s'.nextId >= s.nextId
  {
    GreedyInRange(Boxes(s.active), dets, cfg.iouMatch);
  }

  lemma DequeExplained(cfg: Config, s: Tracker, pts: int, dets: seq<Box>, energies: seq<real>)
    requires AllSound(s.active) && |dets| <= |energies|
    ensures AllExplained(cfg, s, AfterUpdate(cfg, s, pts, dets, energies).0, pts, dets, energies)
  {
    var s' := AfterUpdate(cfg, s, pts, dets, energies).0;
    DequeGrows(cfg, s, pts, dets, energies);
    forall j | 0 <= j < |s'.active|
      ensures HasOrigin(cfg, s, pts, dets, energies, j, s'.active[j])
    {
      var d := EveryTrackExplained(cfg, s, pts, dets, energies, j);
    }
  }

  // ---------- Expiry ----------

  /** The track has not been matched for longer than the gap allows. */
  predicate Overdue(cfg: Config, t: Track, pts: int) {
    pts - t.lastPts > cfg.maxGapNs
  }

  lemma {:induction false} SweepSplits(cfg: Config, tracks: seq<Track>, pts: int)
    requires TrackerConservation.AllActive(tracks)
    ensures forall t :: t in Kept(cfg, tracks, pts) <==> t in tracks && !Overdue(cfg, t, pts)
    ensures forall t :: t in Retired(cfg, tracks, pts)
              <==> !t.active && t.(active := true) in tracks && Overdue(cfg, t, pts)
    ensures |Kept(cfg, tracks, pts)| + |Retired(cfg, tracks, pts)| == |tracks|
  {
    if tracks == [] {
    } else {
      SweepSplits(cfg, tracks[..|tracks| - 1], pts);
    }
  }

  predicate OlderThan(tracks: seq<Track>, id: int) {
    forall i | 0 <= i < |tracks| :: tracks[i].trackId < id
  }

  lemma OneIdMore(q: seq<Track>, t: Track, next: int)
    requires TrackerConservation.IncreasingIds(q, next) && OlderThan(q, t.trackId) && 1 <= t.trackId < next
    ensures TrackerConservation.IncreasingIds(q + [t], next)
  {
  }

  lemma RetiredAreOlder(cfg: Config, tracks: seq<Track>, pts: int, id: int)
    requires TrackerConservation.AllActive(tracks) && OlderThan(tracks, id)
    ensures OlderThan(Retired(cfg, tracks, pts), id)
  {
    SweepSplits(cfg, tracks, pts);
    var retired := Retired(cfg, tracks, pts);
    forall k | 0 <= k < |retired|
      ensures retired[k].trackId < id
    {
      assert retired[k] in retired;
    }
  }

  lemma {:induction false} RetiredInOrder(cfg: Config, tracks: seq<Track>, pts: int, next: int)
    requires TrackerConservation.AllActive(tracks) && TrackerConservation.IncreasingIds(tracks, next)
    ensures TrackerConservation.IncreasingIds(Retired(cfg, tracks, pts), next)
  {
    var n := |tracks| - 1;
    if tracks == [] {
    } else {
      RetiredInOrder(cfg, tracks[..n], pts, next);
      RetiredAreOlder(cfg, tracks[..n], pts, tracks[n].trackId);
      OneIdMore(Retired(cfg, tracks[..n], pts), tracks[n].(active := false), next);
    }
  }

  /** The sweep keeps exactly the tracks not overdue, and `gone` are exactly the others, flagged; both in order. */
  ghost predicate Swept(cfg: Config, s: Tracker, s': Tracker, gone: seq<Track>, pts: int) {
    && (forall t :: t in s'.active <==> t in s.active && !Overdue(cfg, t, pts))
    && (forall t :: t in gone <==> !t.active && t.(active := true) in s.active && Overdue(cfg, t, pts))
    && |s'.active| + |gone| == |s.active|
    && TrackerConservation.IncreasingIds(s'.active, s'.nextId) && TrackerConservation.IncreasingIds(gone, s'.nextId)
  }

  /** The history takes the tracks in behind, and gives up its oldest ones beyond the limit, if there is a limit. */
  ghost predicate Archived(cfg: Config, s: Tracker, s': Tracker, gone: seq<Track>) {
    && s.trimmed <= s'.trimmed && s'.trimmed + s'.completed == s.trimmed + s.completed + gone
    && (cfg.maxTracks >= 0 ==> |s'.completed| <= cfg.maxTracks)
    && (s'.trimmed != s.trimmed ==> |s'.completed| == cfg.maxTracks)
  }

  lemma CutArchives(trimmed: seq<Track>, completed: seq<Track>, gone: seq<Track>, k: nat)
    requires k <= |completed + gone|
    ensures trimmed + (completed + gone)[..k] + (completed + gone)[k..] == trimmed + completed + gone
  {
  }

  lemma ExpiryArchives(cfg: Config, s: Tracker, pts: int, gone: seq<Track>)
    requires gone == Retired(cfg, s.active, pts)
    ensures Archived(cfg, s, AfterExpire(cfg, s, pts), gone)
  {
    CutArchives(s.trimmed, s.completed, gone, Excess(cfg, |s.completed + gone|));
  }

  /** What an expiry does with every track of the tracker. */
  lemma ExpiryExplained(cfg: Config, s: Tracker, pts: int) returns (gone: seq<Track>)
    requires TrackerConservation.AllActive(s.active) && TrackerConservation.IncreasingIds(s.active, s.nextId)
    ensures var s' := AfterExpire(cfg, s, pts);
            s'.nextId == s.nextId && Swept(cfg, s, s', gone, pts) && Archived(cfg, s, s', gone)
  {
    gone := Retired(cfg, s.active, pts);
    SweepSplits(cfg, s.active, pts);
    TrackerConservation.KeptInOrder(cfg, s.active, pts, s.nextId);
    RetiredInOrder(cfg, s.active, pts, s.nextId);
    ExpiryArchives(cfg, s, pts, gone);
  }
}
