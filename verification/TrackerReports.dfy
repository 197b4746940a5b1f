/**
 What a call of the tracker answers, field by field: every update describes one track of the deque
 as the call leaves it.
 */
module TrackerReports {
  import opened Geometry
  import opened TrackerSpec
  import Kalman
  import TrackerConservation

  /** The update says of the track what the track says of itself. */
  predicate Describes(u: TrackUpdate, t: Track) {
    && u.trackId == t.trackId && u.box == t.box
    && u.instant == t.instant && u.smoothed == t.smoothed && u.cumulative == t.cumulative
    && u.severity == t.severity && u.frameCount == t.frameCount && u.durationNs == t.lastPts - t.startPts
  }

  /** Track j of the deque is the only one of that id, and the update describes it. */
  ghost predicate DescribesOnly(u: TrackUpdate, tracks: seq<Track>, j: int) {
    && 0 <= j < |tracks| && Describes(u, tracks[j])
    && forall k | 0 <= k < |tracks| && k != j :: tracks[k].trackId != u.trackId
  }

  /** Some track of these has the id of the update, and a lower level. */
  ghost predicate Risen(u: TrackUpdate, tracks: seq<Track>) {
    exists i | 0 <= i < |tracks| :: tracks[i].trackId == u.trackId && tracks[i].severity < u.severity
  }

  /** The update compares the deque before and after the call rightly. */
  ghost predicate TellsNews(u: TrackUpdate, before: Tracker) {
    (u.isNew <==> u.trackId >= before.nextId) && (u.escalated <==> Risen(u, before.active))
  }

  // ---------- One update ----------

  lemma AnswerOfTouch(cfg: Config, t: Track, pts: int, box: Box, energy: real)
    requires Kalman.Sound(t.filter)
    ensures var t' := Touch(cfg, t, pts, box, energy); var u := UpdateOf(t, t');
            && Describes(u, t') && u.trackId == t.trackId && !u.isNew
            && (u.escalated <==> t.severity < u.severity)
  {
  }

  lemma AnswerOfNew(id: int, pts: int, box: Box, energy: real)
    ensures var t := NewTrack(id, pts, box, energy); var u := UpdateOfNew(t);
            Describes(u, t) && u.trackId == id && u.isNew && !u.escalated
  {
  }

  /** The k-th update of a call, if it comes from a match: of which track, before and after the call. */
  lemma MatchedAnswer(cfg: Config, tracks: seq<Track>, m: seq<int>, pts: int, dets: seq<Box>, energies: seq<real>,
                      after: seq<Track>, k: int)
    returns (j: int)
    requires |m| == |tracks| && Choices(m, |dets|) && |dets| <= |energies| && AllSound(tracks)
    requires after == Touched(cfg, tracks, m, pts, dets, energies) && 0 <= k < |MatchedTracks(m, |m|)|
    ensures var u := MatchedUpdates(tracks, after, m, |m|)[k];
            && 0 <= j < |tracks| && m[j] >= 0 && Describes(u, after[j]) && u.trackId == tracks[j].trackId && !u.isNew
            && (u.escalated <==> tracks[j].severity < u.severity)
  {
    j := MatchedTracks(m, |m|)[k];
    TouchedAt(cfg, tracks, m, pts, dets, energies, j);
    AnswerOfTouch(cfg, tracks[j], pts, dets[m[j]], energies[m[j]]);
  }

  /** And if it comes from an unclaimed detection. */
  lemma NewAnswer(news: seq<int>, nextId: int, pts: int, dets: seq<Box>, energies: seq<real>, tracks: seq<Track>,
                  k: int)
    requires |dets| <= |energies| && (forall l | 0 <= l < |news| :: 0 <= news[l] < |dets|) && 0 <= k < |news|
    requires tracks == NewTracks(news, nextId, pts, dets, energies)
    ensures var u := NewUpdates(tracks)[k];
            Describes(u, tracks[k]) && u.trackId == nextId + k && u.isNew && !u.escalated
  {
    NewTracksAt(news, nextId, pts, dets, energies, k);
    AnswerOfNew(nextId + k, pts, dets[news[k]], energies[news[k]]);
  }

  /** Before the call track j was either one of the old ones or not there yet; the update says so. */
  ghost predicate ToldApart(u: TrackUpdate, before: Tracker, j: int) {
    if 0 <= j < |before.active| then
      && u.trackId == before.active[j].trackId && !u.isNew
      && (u.escalated <==> before.active[j].severity < u.severity)
    else u.trackId == before.nextId + (j - |before.active|) && u.isNew && !u.escalated
  }

  /** Whatever the ids of the tracker: every update describes a track of the new deque. */
  lemma UpdateHasTrack(cfg: Config, s: Tracker, pts: int, dets: seq<Box>, energies: seq<real>, u: int)
    returns (j: int)
    requires AllSound(s.active) && |dets| <= |energies|
    requires 0 <= u < |AfterUpdate(cfg, s, pts, dets, energies).1|
    ensures var after := AfterUpdate(cfg, s, pts, dets, energies);
            0 <= j < |after.0.active| && Describes(after.1[u], after.0.active[j]) && ToldApart(after.1[u], s, j)
  {
    var m := Greedy(Boxes(s.active), dets, cfg.iouMatch);
    GreedyInRange(Boxes(s.active), dets, cfg.iouMatch);
    var matched := Touched(cfg, s.active, m, pts, dets, energies);
    var news := Unclaimed(Taken(m), |dets|);
    var n := |MatchedTracks(m, |m|)|;
    if u < n {
      j := MatchedAnswer(cfg, s.active, m, pts, dets, energies, matched, u);
    } else {
      NewAnswer(news, s.nextId, pts, dets, energies, NewTracks(news, s.nextId, pts, dets, energies), u - n);
      j := |s.active| + (u - n);
    }
  }

  // ---------- Ids in order ----------

  lemma IdsAfterUpdate(cfg: Config, s: Tracker, pts: int, dets: seq<Box>, energies: seq<real>)
    requires AllSound(s.active) && |dets| <= |energies|
    requires TrackerConservation.IncreasingIds(s.active, s.nextId) && s.nextId >= 1
    ensures var s' := AfterUpdate(cfg, s, pts, dets, energies).0;
            TrackerConservation.IncreasingIds(s'.active, s'.nextId)
  {
    var m := Greedy(Boxes(s.active), dets, cfg.iouMatch);
    GreedyInRange(Boxes(s.active), dets, cfg.iouMatch);
    var touched := Touched(cfg, s.active, m, pts, dets, energies);
    var news := NewTracks(Unclaimed(Taken(m), |dets|), s.nextId, pts, dets, energies);
    TrackerConservation.TouchedIds(cfg, s.active, m, pts, dets, energies);
    TrackerConservation.NewTracksIds(Unclaimed(Taken(m), |dets|), s.nextId, pts, dets, energies);
    TrackerConservation.SameIdsInOrder(s.active, touched, s.nextId);
    TrackerConservation.NextIdsKeepOrder(touched, news, s.nextId);
  }

  lemma OnlyOneOfThatId(u: TrackUpdate, tracks: seq<Track>, next: int, j: int)
    requires TrackerConservation.IncreasingIds(tracks, next) && 0 <= j < |tracks| && Describes(u, tracks[j])
    ensures DescribesOnly(u, tracks, j)
  {
    forall k | 0 <= k < |tracks| && k != j
      ensures tracks[k].trackId != u.trackId
    {
      assert k < j || j < k;
    }
  }

  lemma ToldApartTellsNews(u: TrackUpdate, before: Tracker, j: int)
    requires TrackerConservation.IncreasingIds(before.active, before.nextId) && j >= 0 && ToldApart(u, before, j)
    ensures TellsNews(u, before)
  {
    forall i | 0 <= i < |before.active| && i != j
      ensures before.active[i].trackId != u.trackId
    {
      assert i < j || j < i;
    }
  }

  /** The update describes the one track of its id, and tells truly whether it is new and whether it has risen. */
  ghost predicate Answered(u: TrackUpdate, before: Tracker, after: Tracker) {
    (exists j :: DescribesOnly(u, after.active, j)) && TellsNews(u, before)
  }

  /** Every update of every call describes exactly one track of the deque the call leaves behind. */
  lemma EveryUpdateAnswered(cfg: Config, s: Tracker, pts: int, dets: seq<Box>, energies: seq<real>)
    requires AllSound(s.active) && |dets| <= |energies|
    requires TrackerConservation.IncreasingIds(s.active, s.nextId) && s.nextId >= 1
    ensures var after := AfterUpdate(cfg, s, pts, dets, energies);
            forall u | u in after.1 :: Answered(u, s, after.0)
  {
    var after := AfterUpdate(cfg, s, pts, dets, energies);
    IdsAfterUpdate(cfg, s, pts, dets, energies);
    forall u | u in after.1
      ensures Answered(u, s, after.0)
    {
      var k :| 0 <= k < |after.1| && after.1[k] == u;
      var j := UpdateHasTrack(cfg, s, pts, dets, energies, k);
      OnlyOneOfThatId(u, after.0.active, after.0.nextId, j);
      ToldApartTellsNews(u, s, j);
    }
  }

  // ---------- The other way round ----------

  lemma MatchIsAnswered(tracks: seq<Track>, after: seq<Track>, m: seq<int>, j: int) returns (k: int)
    requires |tracks| == |after| == |m| && 0 <= j < |m| && m[j] >= 0
    ensures var us := MatchedUpdates(tracks, after, m, |m|); 0 <= k < |us| && us[k].trackId == after[j].trackId
  {
    var ts := MatchedTracks(m, |m|);
    TrackerConservation.MatchedTracksComplete(m, |m|);
    k :| 0 <= k < |ts| && ts[k] == j;
  }

  /** A track of the new deque that no update names is an old one, unchanged. */
  lemma UnnamedIsUnchanged(cfg: Config, s: Tracker, pts: int, dets: seq<Box>, energies: seq<real>, j: int)
    requires AllSound(s.active) && |dets| <= |energies|
    requires 0 <= j < |AfterUpdate(cfg, s, pts, dets, energies).0.active|
    ensures var after := AfterUpdate(cfg, s, pts, dets, energies); var t := after.0.active[j];
            (exists u :: u in after.1 && u.trackId == t.trackId) || (j < |s.active| && t == s.active[j])
  {
    var m := Greedy(Boxes(s.active), dets, cfg.iouMatch);
    GreedyInRange(Boxes(s.active), dets, cfg.iouMatch);
    var matched := Touched(cfg, s.active, m, pts, dets, energies);
    var newcomers := NewTracks(Unclaimed(Taken(m), |dets|), s.nextId, pts, dets, energies);
    var us := AfterUpdate(cfg, s, pts, dets, energies).1;
    if j >= |s.active| {
      var k := |MatchedTracks(m, |m|)| + (j - |s.active|);
      assert us[k] == NewUpdates(newcomers)[j - |s.active|];
      assert us[k] in us && us[k].trackId == newcomers[j - |s.active|].trackId;
    } else if m[j] >= 0 {
      var k := MatchIsAnswered(s.active, matched, m, j);
      assert us[k] == MatchedUpdates(s.active, matched, m, |m|)[k];
      assert us[k] in us;
    } else {
      TouchedAt(cfg, s.active, m, pts, dets, energies, j);
    }
  }
}
