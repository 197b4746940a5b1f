/**
 What one call of the arc lifecycle tracker does, on values: greedy matching of detections to
 tracks, the energies and the severity of the matched tracks, new tracks, and expiry.
 */
module TrackerSpec {
  import opened Geometry
  import Kalman

  /** The levels 1 (minor spark) to 5 (fatal ablation). */
  type Level = x: int | 1 <= x <= 5 witness 1

  datatype Thresholds = Thresholds(
    level2Cumulative: real, level3Cumulative: real, level4Cumulative: real, level5Cumulative: real,
    level3Instant: real, level5Instant: real, level4DurationNs: int, level5DurationNs: int)

  datatype Config = Config(thresholds: Thresholds, iouMatch: real, maxGapNs: int, maxTracks: int)

  datatype Track = Track(
    trackId: int, streamIndex: int, startPts: int, lastPts: int, frameCount: int, box: Box,
    instant: real, smoothed: real, cumulative: real, filter: Kalman.Filter, severity: Level, active: bool)

  datatype TrackUpdate = TrackUpdate(
    trackId: int, box: Box, instant: real, smoothed: real, cumulative: real, severity: Level,
    frameCount: int, durationNs: int, isNew: bool, escalated: bool)

  /** The tracker's three containers and counter; `trimmed` is the history the code has thrown away. */
  datatype Tracker = Tracker(active: seq<Track>, completed: seq<Track>, nextId: int, trimmed: seq<Track>)

  const EMPTY: Tracker := Tracker([], [], 1, [])

  datatype Op =
    | Update(pts: int, dets: seq<Box>, energies: seq<real>)
    | Expire(pts: int)
  {
    predicate Valid() {
      Update? ==> |dets| <= |energies|
    }
  }

  // ---------- One track ----------

  function Classify(th: Thresholds, cumulative: real, smoothed: real, duration: int): Level {
    if cumulative >= th.level5Cumulative || smoothed >= th.level5Instant || duration >= th.level5DurationNs then 5
    else if cumulative >= th.level4Cumulative || duration >= th.level4DurationNs then 4
    else if cumulative >= th.level3Cumulative || smoothed >= th.level3Instant then 3
    else if cumulative >= th.level2Cumulative then 2
    else 1
  }

  /** One thirtieth of a second at the smoothed energy. */
  function Thirtieth(energy: real): real {
    energy * (1.0 / 30.0)
  }

  function Touch(cfg: Config, t: Track, pts: int, box: Box, energy: real): Track
    requires Kalman.Sound(t.filter)
  {
    var filter := Kalman.Update(t.filter, energy);
    var cumulative := t.cumulative + Thirtieth(filter.x);
    t.(box := box, lastPts := pts, frameCount := t.frameCount + 1, instant := energy, filter := filter,
       smoothed := filter.x, cumulative := cumulative,
       severity := Classify(cfg.thresholds, cumulative, filter.x, pts - t.startPts))
  }

  const NEW_FILTER: Kalman.Filter := Kalman.Start(0.01, 0.1)

  /** A new track is level 1; the classifier is not asked. */
  function NewTrack(id: int, pts: int, box: Box, energy: real): Track {
    var filter := Kalman.Update(NEW_FILTER, energy);
    Track(id, 0, pts, pts, 1, box, energy, filter.x, Thirtieth(filter.x), filter, 1, true)
  }

  function UpdateOf(before: Track, after: Track): TrackUpdate {
    TrackUpdate(after.trackId, after.box, after.instant, after.smoothed, after.cumulative, after.severity,
                after.frameCount, after.lastPts - after.startPts, false, after.severity > before.severity)
  }

  function UpdateOfNew(t: Track): TrackUpdate {
    TrackUpdate(t.trackId, t.box, t.instant, t.smoothed, t.cumulative, t.severity, 1, 0, true, false)
  }

  // ---------- Greedy matching ----------

  /** Detection d is the first of the best unclaimed ones for this box. */
  ghost predicate IsBest(box: Box, dets: seq<Box>, taken: set<int>, d: int) {
    && 0 <= d < |dets| && d !in taken && IoU(box, dets[d]) > 0.0
    && forall e | 0 <= e < |dets| && e !in taken ::
         IoU(box, dets[e]) < IoU(box, dets[d]) || (IoU(box, dets[e]) == IoU(box, dets[d]) && d <= e)
  }

  ghost predicate Claims(box: Box, dets: seq<Box>, taken: set<int>, threshold: real, d: int) {
    IsBest(box, dets, taken, d) && IoU(box, dets[d]) >= threshold
  }

  /** The detection a track claims, or -1. */
  ghost function Choice(box: Box, dets: seq<Box>, taken: set<int>, threshold: real): (d: int)
    ensures d == -1 || Claims(box, dets, taken, threshold, d)
    ensures forall e :: Claims(box, dets, taken, threshold, e) ==> d == e
  {
    if d :| Claims(box, dets, taken, threshold, d) then d else -1
  }

  function Taken(m: seq<int>): set<int> {
    set d | d in m
  }

  function Boxes(tracks: seq<Track>): seq<Box> {
    seq(|tracks|, i requires 0 <= i < |tracks| => tracks[i].box)
  }

  /** Older tracks choose first; m[t] is the choice of track t. */
  ghost function Greedy(boxes: seq<Box>, dets: seq<Box>, threshold: real): (m: seq<int>)
    ensures |m| == |boxes|
  {
    if boxes == [] then []
    else
      var m := Greedy(boxes[..|boxes| - 1], dets, threshold);
      m + [Choice(boxes[|boxes| - 1], dets, Taken(m), threshold)]
  }

  /** The choice of one track depends on the older ones alone. */
  lemma {:induction false} GreedyAt(boxes: seq<Box>, dets: seq<Box>, threshold: real, t: nat)
    requires t < |boxes|
    ensures var m := Greedy(boxes, dets, threshold); m[t] == Choice(boxes[t], dets, Taken(m[..t]), threshold)
  {
    var n := |boxes| - 1;
    var m, m0 := Greedy(boxes, dets, threshold), Greedy(boxes[..n], dets, threshold);
    assert m[..n] == m0;
    if t < n {
      GreedyAt(boxes[..n], dets, threshold, t);
      assert m[..t] == m0[..t];
    }
  }

  // ---------- A whole update ----------

  predicate Choices(m: seq<int>, n: nat) {
    forall t | 0 <= t < |m| :: -1 <= m[t] < n
  }

  predicate AllSound(tracks: seq<Track>) {
    forall i | 0 <= i < |tracks| :: Kalman.Sound(tracks[i].filter)
  }

  /** The old tracks after the call. */
  function Touched(cfg: Config, tracks: seq<Track>, m: seq<int>, pts: int, dets: seq<Box>,
                   energies: seq<real>): (r: seq<Track>)
    requires |m| == |tracks| && Choices(m, |dets|) && |dets| <= |energies| && AllSound(tracks)
    ensures |r| == |tracks|
  {
    seq(|tracks|, t requires 0 <= t < |tracks| =>
      if m[t] >= 0 then Touch(cfg, tracks[t], pts, dets[m[t]], energies[m[t]]) else tracks[t])
  }

  /** The tracks among the first n that have claimed a detection, in order. */
  function MatchedTracks(m: seq<int>, n: nat): (ts: seq<int>)
    requires n <= |m|
    ensures forall k | 0 <= k < |ts| :: 0 <= ts[k] < n && m[ts[k]] >= 0
    ensures forall k, l | 0 <= k < l < |ts| :: ts[k] < ts[l]
  {
    if n == 0 then []
    else MatchedTracks(m, n - 1) + (if m[n - 1] >= 0 then [n - 1] else [])
  }

  /** The updates of the matched ones among the first n tracks. */
  function MatchedUpdates(before: seq<Track>, after: seq<Track>, m: seq<int>, n: nat): (us: seq<TrackUpdate>)
    requires |before| == |after| == |m| && n <= |m|
    ensures |us| == |MatchedTracks(m, n)|
  {
    var ts := MatchedTracks(m, n);
    seq(|ts|, k requires 0 <= k < |ts| => UpdateOf(before[ts[k]], after[ts[k]]))
  }

  /** The detections among the first n that nobody has claimed, in order. */
  function Unclaimed(taken: set<int>, n: nat): (u: seq<int>)
    ensures forall k | 0 <= k < |u| :: 0 <= u[k] < n && u[k] !in taken
    ensures forall k, l | 0 <= k < l < |u| :: u[k] < u[l]
  {
    if n == 0 then []
    else Unclaimed(taken, n - 1) + (if n - 1 in taken then [] else [n - 1])
  }

  function NewTracks(news: seq<int>, nextId: int, pts: int, dets: seq<Box>, energies: seq<real>): (r: seq<Track>)
    requires |dets| <= |energies| && forall k | 0 <= k < |news| :: 0 <= news[k] < |dets|
    ensures |r| == |news|
  {
    seq(|news|, k requires 0 <= k < |news| => NewTrack(nextId + k, pts, dets[news[k]], energies[news[k]]))
  }

  function NewUpdates(tracks: seq<Track>): seq<TrackUpdate> {
    seq(|tracks|, k requires 0 <= k < |tracks| => UpdateOfNew(tracks[k]))
  }

  lemma {:induction false} GreedyInRange(boxes: seq<Box>, dets: seq<Box>, threshold: real)
    ensures Choices(Greedy(boxes, dets, threshold), |dets|)
  {
    if boxes == [] {
    } else {
      GreedyInRange(boxes[..|boxes| - 1], dets, threshold);
    }
  }

  ghost function AfterUpdate(cfg: Config, s: Tracker, pts: int, dets: seq<Box>, energies: seq<real>)
    : (r: (Tracker, seq<TrackUpdate>))
    requires AllSound(s.active) && |dets| <= |energies|
  {
    var m := Greedy(Boxes(s.active), dets, cfg.iouMatch);
    GreedyInRange(Boxes(s.active), dets, cfg.iouMatch);
    var matched := Touched(cfg, s.active, m, pts, dets, energies);
    var newcomers := NewTracks(Unclaimed(Taken(m), |dets|), s.nextId, pts, dets, energies);
    (s.(active := matched + newcomers, nextId := s.nextId + |newcomers|),
     MatchedUpdates(s.active, matched, m, |m|) + NewUpdates(newcomers))
  }

  // ---------- Expiry ----------

  predicate Expires(cfg: Config, t: Track, pts: int) {
    t.active && pts - t.lastPts > cfg.maxGapNs
  }

  /** The tracks a sweep keeps, in order. */
  function Kept(cfg: Config, tracks: seq<Track>, pts: int): seq<Track> {
    if tracks == [] then []
    else
      var t := tracks[|tracks| - 1];
      Kept(cfg, tracks[..|tracks| - 1], pts) + (if t.active && !Expires(cfg, t, pts) then [t] else [])
  }

  /** The tracks a sweep retires, in order. */
  function Retired(cfg: Config, tracks: seq<Track>, pts: int): seq<Track> {
    if tracks == [] then []
    else
      var t := tracks[|tracks| - 1];
      Retired(cfg, tracks[..|tracks| - 1], pts) + (if Expires(cfg, t, pts) then [t.(active := false)] else [])
  }

  /** How many completed tracks are dropped; a negative limit becomes a huge unsigned one and drops none. */
  function Excess(cfg: Config, n: nat): (k: nat)
    ensures k <= n
  {
    if 0 <= cfg.maxTracks < n then n - cfg.maxTracks else 0
  }

  function AfterExpire(cfg: Config, s: Tracker, pts: int): Tracker {
    var completed := s.completed + Retired(cfg, s.active, pts);
    var k := Excess(cfg, |completed|);
    s.(active := Kept(cfg, s.active, pts), completed := completed[k..], trimmed := s.trimmed + completed[..k])
  }

  ghost function Step(cfg: Config, s: Tracker, op: Op): (Tracker, seq<TrackUpdate>)
    requires AllSound(s.active) && op.Valid()
  {
    match op
    case Update(pts, dets, energies) => AfterUpdate(cfg, s, pts, dets, energies)
    case Expire(pts) => (AfterExpire(cfg, s, pts), [])
  }

  // ---------- Filters stay sound ----------

  lemma TouchSound(cfg: Config, t: Track, pts: int, box: Box, energy: real)
    requires Kalman.Sound(t.filter)
    ensures Kalman.Sound(Touch(cfg, t, pts, box, energy).filter)
  {
    Kalman.StaysSound(t.filter, energy);
  }

  lemma NewTrackSound(id: int, pts: int, box: Box, energy: real)
    ensures Kalman.Sound(NewTrack(id, pts, box, energy).filter)
  {
    Kalman.StaysSound(NEW_FILTER, energy);
  }

  lemma TouchedSound(cfg: Config, tracks: seq<Track>, m: seq<int>, pts: int, dets: seq<Box>, energies: seq<real>)
    requires |m| == |tracks| && Choices(m, |dets|) && |dets| <= |energies| && AllSound(tracks)
    ensures AllSound(Touched(cfg, tracks, m, pts, dets, energies))
  {
    forall t | 0 <= t < |tracks|
      ensures Kalman.Sound(Touched(cfg, tracks, m, pts, dets, energies)[t].filter)
    {
      if m[t] >= 0 {
        TouchSound(cfg, tracks[t], pts, dets[m[t]], energies[m[t]]);
      }
    }
  }

  lemma NewTracksSound(news: seq<int>, nextId: int, pts: int, dets: seq<Box>, energies: seq<real>)
    requires |dets| <= |energies| && forall k | 0 <= k < |news| :: 0 <= news[k] < |dets|
    ensures AllSound(NewTracks(news, nextId, pts, dets, energies))
  {
    forall k | 0 <= k < |news|
      ensures Kalman.Sound(NewTracks(news, nextId, pts, dets, energies)[k].filter)
    {
      NewTrackSound(nextId + k, pts, dets[news[k]], energies[news[k]]);
    }
  }

  lemma AllSoundTogether(a: seq<Track>, b: seq<Track>)
    requires AllSound(a) && AllSound(b)
    ensures AllSound(a + b)
  {
  }

  lemma UpdateKeepsSound(cfg: Config, s: Tracker, pts: int, dets: seq<Box>, energies: seq<real>)
    requires AllSound(s.active) && |dets| <= |energies|
    ensures AllSound(AfterUpdate(cfg, s, pts, dets, energies).0.active)
  {
    var m := Greedy(Boxes(s.active), dets, cfg.iouMatch);
    GreedyInRange(Boxes(s.active), dets, cfg.iouMatch);
    var news := Unclaimed(Taken(m), |dets|);
    TouchedSound(cfg, s.active, m, pts, dets, energies);
    NewTracksSound(news, s.nextId, pts, dets, energies);
    AllSoundTogether(Touched(cfg, s.active, m, pts, dets, energies), NewTracks(news, s.nextId, pts, dets, energies));
  }

  lemma {:induction false} KeptSound(cfg: Config, tracks: seq<Track>, pts: int)
    requires AllSound(tracks)
    ensures AllSound(Kept(cfg, tracks, pts))
  {
    if tracks == [] {
    } else {
      KeptSound(cfg, tracks[..|tracks| - 1], pts);
    }
  }

  // ---------- Runs ----------

  predicate ValidOps(ops: seq<Op>) {
    forall i | 0 <= i < |ops| :: ops[i].Valid()
  }

  /** The tracker after any sequence of calls, from its construction. */
  ghost function Run(cfg: Config, ops: seq<Op>): (s: Tracker)
    requires ValidOps(ops)
    ensures AllSound(s.active)
  {
    if ops == [] then EMPTY
    else
      var before := Run(cfg, ops[..|ops| - 1]);
      StepKeepsSound(cfg, before, ops[|ops| - 1]);
      Step(cfg, before, ops[|ops| - 1]).0
  }

  lemma StepKeepsSound(cfg: Config, s: Tracker, op: Op)
    requires AllSound(s.active) && op.Valid()
    ensures AllSound(Step(cfg, s, op).0.active)
  {
    match op
    case Update(pts, dets, energies) => UpdateKeepsSound(cfg, s, pts, dets, energies);
    case Expire(pts) => KeptSound(cfg, s.active, pts);
  }

  lemma TouchedAt(cfg: Config, tracks: seq<Track>, m: seq<int>, pts: int, dets: seq<Box>, energies: seq<real>, j: int)
    requires |m| == |tracks| && Choices(m, |dets|) && |dets| <= |energies| && AllSound(tracks) && 0 <= j < |tracks|
    ensures Touched(cfg, tracks, m, pts, dets, energies)[j]
            == if m[j] >= 0 then Touch(cfg, tracks[j], pts, dets[m[j]], energies[m[j]]) else tracks[j]
  {
  }

  lemma NewTracksAt(news: seq<int>, nextId: int, pts: int, dets: seq<Box>, energies: seq<real>, k: int)
    requires |dets| <= |energies| && (forall l | 0 <= l < |news| :: 0 <= news[l] < |dets|) && 0 <= k < |news|
    ensures NewTracks(news, nextId, pts, dets, energies)[k]
            == NewTrack(nextId + k, pts, dets[news[k]], energies[news[k]])
  {
  }

  /** What the deque holds at j: one of the old tracks touched or not, or one of the new ones. */
  lemma ActiveAt(cfg: Config, s: Tracker, pts: int, dets: seq<Box>, energies: seq<real>, m: seq<int>, j: int)
    requires AllSound(s.active) && |dets| <= |energies|
    requires m == Greedy(Boxes(s.active), dets, cfg.iouMatch) && Choices(m, |dets|)
    requires 0 <= j < |AfterUpdate(cfg, s, pts, dets, energies).0.active|
    ensures var news := Unclaimed(Taken(m), |dets|);
            && j < |s.active| + |news|
            && AfterUpdate(cfg, s, pts, dets, energies).0.active[j]
               == if j < |s.active| then Touched(cfg, s.active, m, pts, dets, energies)[j]
                  else NewTracks(news, s.nextId, pts, dets, energies)[j - |s.active|]
  {
  }

  /** t is what this origin says: an old track, an old one touched, or a new one. */
  ghost predicate Origin(cfg: Config, s: Tracker, pts: int, dets: seq<Box>, energies: seq<real>, j: int, d: int,
                         t: Track)
    requires AllSound(s.active) && |dets| <= |energies| && 0 <= j
  {
    && -1 <= d < |dets|
    && (j < |s.active| && d < 0 ==> t == s.active[j])
    && (j < |s.active| && d >= 0 ==>
          && t == Touch(cfg, s.active[j], pts, dets[d], energies[d])
          && IoU(s.active[j].box, dets[d]) >= cfg.iouMatch && IoU(s.active[j].box, dets[d]) > 0.0)
    && (j >= |s.active| ==> d >= 0 && t == NewTrack(s.nextId + (j - |s.active|), pts, dets[d], energies[d]))
  }

  lemma OldOrigin(cfg: Config, s: Tracker, pts: int, dets: seq<Box>, energies: seq<real>, m: seq<int>, j: int, t: Track)
    requires AllSound(s.active) && |dets| <= |energies| && 0 <= j < |s.active|
    requires m == Greedy(Boxes(s.active), dets, cfg.iouMatch) && Choices(m, |dets|)
    requires t == Touched(cfg, s.active, m, pts, dets, energies)[j]
    ensures Origin(cfg, s, pts, dets, energies, j, m[j], t)
  {
    GreedyAt(Boxes(s.active), dets, cfg.iouMatch, j);
    TouchedAt(cfg, s.active, m, pts, dets, energies, j);
  }

  lemma NewOrigin(cfg: Config, s: Tracker, pts: int, dets: seq<Box>, energies: seq<real>, news: seq<int>,
                  j: int, t: Track)
    requires AllSound(s.active) && |dets| <= |energies| && |s.active| <= j < |s.active| + |news|
    requires forall l | 0 <= l < |news| :: 0 <= news[l] < |dets|
    requires t == NewTracks(news, s.nextId, pts, dets, energies)[j - |s.active|]
    ensures Origin(cfg, s, pts, dets, energies, j, news[j - |s.active|], t)
  {
    NewTracksAt(news, s.nextId, pts, dets, energies, j - |s.active|);
  }

  /** Where a track of the deque comes from. */
  lemma ActiveOrigin(cfg: Config, s: Tracker, pts: int, dets: seq<Box>, energies: seq<real>, j: int)
    returns (d: int)
    requires AllSound(s.active) && |dets| <= |energies|
    requires 0 <= j < |AfterUpdate(cfg, s, pts, dets, energies).0.active|
    ensures Origin(cfg, s, pts, dets, energies, j, d, AfterUpdate(cfg, s, pts, dets, energies).0.active[j])
  {
    var m := Greedy(Boxes(s.active), dets, cfg.iouMatch);
    GreedyInRange(Boxes(s.active), dets, cfg.iouMatch);
    ActiveAt(cfg, s, pts, dets, energies, m, j);
    var t, news := AfterUpdate(cfg, s, pts, dets, energies).0.active[j], Unclaimed(Taken(m), |dets|);
    if j < |s.active| {
      d := m[j];
      OldOrigin(cfg, s, pts, dets, energies, m, j, t);
    } else {
      d := news[j - |s.active|];
      NewOrigin(cfg, s, pts, dets, energies, news, j, t);
    }
  }
}
