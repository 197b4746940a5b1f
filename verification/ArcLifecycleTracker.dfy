/**
 The tracker as the code runs it: a deque of tracks updated in place, in the order of the source's
 loops. Each call is proved equal to its value-level description in TrackerSpec.
 */
module ArcLifecycleTracker {
  import opened Common
  import opened Geometry
  import opened TrackerSpec
  import Kalman
  import TrackerConservation
  import TrackerNumbers
  import TrackerReports

  class ArcLifecycleTracker {
    const cfg: Config
    var nextTrackId: int
    var activeTracks: seq<Track>
    var completedTracks: seq<Track>
    ghost var trimmed: seq<Track>

    ghost function State(): Tracker
      reads this
    {
      Tracker(activeTracks, completedTracks, nextTrackId, trimmed)
    }

    ghost predicate Valid()
      reads this
    {
      AllSound(activeTracks)
    }

    constructor (cfg: Config)
      ensures Valid() && State() == EMPTY && this.cfg == cfg
      ensures activeTracks == completedTracks == [] && nextTrackId == 1
    {
      this.cfg := cfg;
      nextTrackId, activeTracks, completedTracks, trimmed := 1, [], [], [];
    }

    /** update: the greedy pass over the old tracks, then a new track for every unmatched detection. */
    method UpdateTracks(pts: int, dets: seq<Box>, energies: seq<real>) returns (updates: seq<TrackUpdate>)
      requires Valid() && |dets| <= |energies|
      modifies this
      ensures Valid()
      ensures (State(), updates) == AfterUpdate(cfg, old(State()), pts, dets, energies)
      ensures TrackerNumbers.AllExplained(cfg, old(State()), State(), pts, dets, energies)
      ensures InOrder(old(State())) ==> forall u | u in updates :: TrackerReports.Answered(u, old(State()), State())
    {
      GreedyInRange(Boxes(activeTracks), dets, cfg.iouMatch);
      ghost var m := Greedy(Boxes(activeTracks), dets, cfg.iouMatch);
      var detectionMatched;
      updates, detectionMatched := MatchTracks(pts, dets, energies);
      updates := OpenTracks(pts, dets, energies, detectionMatched, updates, Taken(m));
      UpdateKeepsSound(cfg, old(State()), pts, dets, energies);
      UpdateAccounts(cfg, old(State()), pts, dets, energies);
    }

    /** The first loop: every track claims its best unclaimed detection, oldest track first. */
    method MatchTracks(pts: int, dets: seq<Box>, energies: seq<real>)
      returns (updates: seq<TrackUpdate>, detectionMatched: seq<bool>)
      requires Valid() && |dets| <= |energies|
      requires Choices(Greedy(Boxes(activeTracks), dets, cfg.iouMatch), |dets|)
      modifies this`activeTracks
      ensures var was := old(activeTracks);
              var m := Greedy(Boxes(was), dets, cfg.iouMatch);
              && activeTracks == Touched(cfg, was, m, pts, dets, energies)
              && updates == MatchedUpdates(was, activeTracks, m, |m|)
              && Marks(detectionMatched, |dets|, Taken(m))
    {
      ghost var was := activeTracks;
      ghost var m := Greedy(Boxes(was), dets, cfg.iouMatch);
      updates, detectionMatched := MatchAll(pts, dets, energies, was, m, Touched(cfg, was, m, pts, dets, energies));
    }

    method MatchAll(pts: int, dets: seq<Box>, energies: seq<real>,
                    ghost was: seq<Track>, ghost m: seq<int>, ghost touched: seq<Track>)
      returns (updates: seq<TrackUpdate>, detectionMatched: seq<bool>)
      requires |dets| <= |energies| && AllSound(was) && activeTracks == was
      requires m == Greedy(Boxes(was), dets, cfg.iouMatch) && Choices(m, |dets|)
      requires touched == Touched(cfg, was, m, pts, dets, energies)
      modifies this`activeTracks
      ensures activeTracks == touched && updates == MatchedUpdates(was, touched, m, |m|)
      ensures Marks(detectionMatched, |dets|, Taken(m))
    {
      updates := [];
      detectionMatched := seq(|dets|, _ => false);

      for t := 0 to |activeTracks|
        invariant activeTracks == Halfway(touched, was, t)
        invariant updates == MatchedUpdates(was, touched, m, t)
        invariant Marks(detectionMatched, |dets|, Taken(m[..t]))
      {
        updates, detectionMatched := MatchNext(t, pts, dets, energies, updates, detectionMatched, was, m, touched);
      }
      assert m[..|m|] == m;
    }

    /** One round of the first loop. */
    method MatchNext(t: nat, pts: int, dets: seq<Box>, energies: seq<real>, before: seq<TrackUpdate>, marks: seq<bool>,
                     ghost was: seq<Track>, ghost m: seq<int>, ghost touched: seq<Track>)
      returns (updates: seq<TrackUpdate>, detectionMatched: seq<bool>)
      requires |dets| <= |energies| && AllSound(was) && t < |was|
      requires m == Greedy(Boxes(was), dets, cfg.iouMatch) && Choices(m, |dets|)
      requires touched == Touched(cfg, was, m, pts, dets, energies)
      requires activeTracks == Halfway(touched, was, t) && before == MatchedUpdates(was, touched, m, t)
      requires Marks(marks, |dets|, Taken(m[..t]))
      modifies this`activeTracks
      ensures activeTracks == Halfway(touched, was, t + 1) && updates == MatchedUpdates(was, touched, m, t + 1)
      ensures Marks(detectionMatched, |dets|, Taken(m[..t + 1]))
    {
      GreedyAt(Boxes(was), dets, cfg.iouMatch, t);
      HalfwayOn(cfg, was, m, pts, dets, energies, t);
      UpdatesOn(cfg, was, m, pts, dets, energies, t);
      var upd;
      upd, detectionMatched := MatchTrack(t, pts, dets, energies, marks, m);
      updates := before + upd;
    }

    /** The body of the first loop: scan for the best detection, and claim it if it is good enough. */
    method MatchTrack(t: nat, pts: int, dets: seq<Box>, energies: seq<real>, marks: seq<bool>, ghost m: seq<int>)
      returns (upd: seq<TrackUpdate>, detectionMatched: seq<bool>)
      requires t < |activeTracks| == |m| && Kalman.Sound(activeTracks[t].filter) && |dets| <= |energies|
      requires m[t] == Choice(activeTracks[t].box, dets, Taken(m[..t]), cfg.iouMatch)
      requires Marks(marks, |dets|, Taken(m[..t]))
      modifies this`activeTracks
      ensures Marks(detectionMatched, |dets|, Taken(m[..t + 1]))
      ensures m[t] < 0 ==> activeTracks == old(activeTracks) && upd == []
      ensures m[t] >= 0 ==>
                var was := old(activeTracks);
                && m[t] < |dets|
                && activeTracks == was[t := Touch(cfg, was[t], pts, dets[m[t]], energies[m[t]])]
                && upd == [UpdateOf(was[t], activeTracks[t])]
    {
      upd, detectionMatched := [], marks;
      var box := activeTracks[t].box;
      var bestIou, bestDet := BestDetection(box, dets, detectionMatched, Taken(m[..t]));
      ScanFindsChoice(box, dets, Taken(m[..t]), cfg.iouMatch, bestIou, bestDet);
      TakenGrows(m, t);
      if bestDet >= 0 && bestIou >= cfg.iouMatch {
        detectionMatched := detectionMatched[bestDet := true];
        var u := TouchTrack(t, pts, dets[bestDet], energies[bestDet]);
        upd := [u];
      }
    }

    /** The inner scan: the running best over the unmatched detections. */
    method BestDetection(box: Box, dets: seq<Box>, detectionMatched: seq<bool>, ghost taken: set<int>)
      returns (bestIou: real, bestDet: int)
      requires Marks(detectionMatched, |dets|, taken)
      ensures BestSoFar(box, dets, taken, |dets|, bestIou, bestDet)
    {
      bestIou, bestDet := 0.0, -1;
      for d := 0 to |dets|
        invariant BestSoFar(box, dets, taken, d, bestIou, bestDet)
      {
        if detectionMatched[d] {
          continue;
        }
        var iou := IoU(box, dets[d]);
        if iou > bestIou {
          bestIou, bestDet := iou, d;
        }
      }
    }

    /** The body of the first loop for a matched track, field by field. */
    method TouchTrack(t: nat, pts: int, box: Box, rawEnergy: real) returns (upd: TrackUpdate)
      requires t < |activeTracks| && Kalman.Sound(activeTracks[t].filter)
      modifies this`activeTracks
      ensures var was := old(activeTracks);
              && activeTracks == was[t := Touch(cfg, was[t], pts, box, rawEnergy)]
              && upd == UpdateOf(was[t], activeTracks[t])
      ensures TrackerNumbers.Advanced(cfg.thresholds, old(activeTracks)[t], activeTracks[t], pts, box, rawEnergy)
      ensures TrackerReports.Describes(upd, activeTracks[t]) && !upd.isNew
      ensures upd.escalated <==> activeTracks[t].severity > old(activeTracks)[t].severity
    {
      TrackerNumbers.TouchAdvances(cfg, activeTracks[t], pts, box, rawEnergy);
      var track := activeTracks[t];
      track := track.(box := box, lastPts := pts, frameCount := track.frameCount + 1);
      track := track.(instant := rawEnergy, filter := Kalman.Update(track.filter, rawEnergy));
      track := track.(smoothed := track.filter.x);
      var dt := pts - track.startPts;
      var avgEnergy := track.smoothed;
      track := track.(cumulative := track.cumulative + Thirtieth(avgEnergy));
      var prevSeverity := track.severity;
      track := track.(severity := ClassifySeverity(track));
      activeTracks := activeTracks[t := track];
      upd := TrackUpdate(track.trackId, track.box, track.instant, track.smoothed, track.cumulative,
                         track.severity, track.frameCount, dt, false, track.severity > prevSeverity);
    }

    function ClassifySeverity(track: Track): Level {
      Classify(cfg.thresholds, track.cumulative, track.smoothed, track.lastPts - track.startPts)
    }

    /** The second loop: a level-1 track for every detection nobody claimed. */
    method OpenTracks(pts: int, dets: seq<Box>, energies: seq<real>, detectionMatched: seq<bool>,
                      before: seq<TrackUpdate>, ghost taken: set<int>)
      returns (updates: seq<TrackUpdate>)
      requires |dets| <= |energies| && Marks(detectionMatched, |dets|, taken)
      modifies this`activeTracks, this`nextTrackId
      ensures var newcomers := NewTracks(Unclaimed(taken, |dets|), old(nextTrackId), pts, dets, energies);
              && activeTracks == old(activeTracks) + newcomers
              && nextTrackId == old(nextTrackId) + |newcomers|
              && updates == before + NewUpdates(newcomers)
    {
      updates := before;
      ghost var first, was := nextTrackId, activeTracks;
      for d := 0 to |dets|
        invariant var newcomers := NewTracks(Unclaimed(taken, d), first, pts, dets, energies);
                  && activeTracks == was + newcomers
                  && nextTrackId == first + |newcomers|
                  && updates == before + NewUpdates(newcomers)
      {
        ghost var newcomers := NewTracks(Unclaimed(taken, d), first, pts, dets, energies);
        OneMore(taken, d, first, pts, dets, energies, newcomers);
        if detectionMatched[d] {
          continue;
        }
        ghost var t := NewTrack(first + |newcomers|, pts, dets[d], energies[d]);
        Behind(was, newcomers, t);
        Behind(before, NewUpdates(newcomers), UpdateOfNew(t));
        var upd := OpenTrack(pts, dets[d], energies[d]);
        updates := updates + [upd];
      }
    }

    /** The body of the second loop, field by field. */
    method OpenTrack(pts: int, box: Box, energy: real) returns (upd: TrackUpdate)
      modifies this`activeTracks, this`nextTrackId
      ensures var t := NewTrack(old(nextTrackId), pts, box, energy);
              activeTracks == old(activeTracks) + [t] && nextTrackId == old(nextTrackId) + 1 && upd == UpdateOfNew(t)
      ensures var t := activeTracks[|activeTracks| - 1];
              && TrackerNumbers.Opened(t, old(nextTrackId), pts, box, energy)
              && TrackerReports.Describes(upd, t) && upd.isNew && !upd.escalated
    {
      var filter := Kalman.Update(NEW_FILTER, energy);
      var newTrack := Track(nextTrackId, 0, pts, pts, 1, box, energy, filter.x, Thirtieth(filter.x), filter, 1, true);
      nextTrackId := nextTrackId + 1;
      activeTracks := activeTracks + [newTrack];
      upd := TrackUpdate(newTrack.trackId, newTrack.box, newTrack.instant, newTrack.smoothed,
                         newTrack.cumulative, newTrack.severity, 1, 0, true, false);
    }

    method ExpireOldTracks(pts: int)
      requires Valid()
      modifies this
      ensures Valid()
      ensures State() == AfterExpire(cfg, old(State()), pts)
      ensures TrackerConservation.AllActive(old(activeTracks)) && InOrder(old(State())) ==>
                exists gone :: && TrackerNumbers.Swept(cfg, old(State()), State(), gone, pts)
                               && TrackerNumbers.Archived(cfg, old(State()), State(), gone)
    {
      ExpiryAccounts(cfg, State(), pts);
      KeptSound(cfg, activeTracks, pts);
      RetireStale(pts);
      RemoveInactive(old(activeTracks), pts);
      var size := |completedTracks|;
      if cfg.maxTracks >= 0 && size > cfg.maxTracks {
        trimmed := trimmed + completedTracks[..size - cfg.maxTracks];
        completedTracks := completedTracks[size - cfg.maxTracks..];
      }
    }

    /** The loop that flags stale tracks inactive and copies them to the history. */
    method RetireStale(pts: int)
      modifies this`activeTracks, this`completedTracks
      ensures Flagged(old(activeTracks), activeTracks, |activeTracks|, pts)
      ensures completedTracks == old(completedTracks) + Retired(cfg, old(activeTracks), pts)
    {
      ghost var was := activeTracks;
      for i := 0 to |activeTracks|
        invariant Flagged(was, activeTracks, i, pts)
        invariant completedTracks == old(completedTracks) + Retired(cfg, was[..i], pts)
      {
        assert was[..i + 1][..i] == was[..i];
        if activeTracks[i].active && pts - activeTracks[i].lastPts > cfg.maxGapNs {
          activeTracks := activeTracks[i := activeTracks[i].(active := false)];
          completedTracks := completedTracks + [activeTracks[i]];
        }
      }
      assert was[..|was|] == was;
    }

    ghost predicate Flagged(was: seq<Track>, now: seq<Track>, n: nat, pts: int) {
      && |now| == |was| >= n
      && forall k | 0 <= k < |was| ::
           now[k] == if k < n && Expires(cfg, was[k], pts) then was[k].(active := false) else was[k]
    }

    /** remove_if over the deque. */
    method RemoveInactive(ghost was: seq<Track>, ghost pts: int)
      requires Flagged(was, activeTracks, |activeTracks|, pts)
      modifies this`activeTracks
      ensures activeTracks == Kept(cfg, was, pts)
    {
      var kept := [];
      for i := 0 to |activeTracks|
        invariant kept == Kept(cfg, was[..i], pts)
      {
        assert was[..i + 1][..i] == was[..i];
        if activeTracks[i].active {
          kept := kept + [activeTracks[i]];
        }
      }
      assert was[..|was|] == was;
      activeTracks := kept;
    }

    /** The first track of that id, active ones before completed ones. */
    method GetTrack(trackId: int) returns (found: Option<Track>)
      ensures found.Some? ==> exists i :: IsFirst(activeTracks + completedTracks, trackId, i, found.value)
      ensures found.None? ==> forall t | t in activeTracks || t in completedTracks :: t.trackId != trackId
    {
      for i := 0 to |activeTracks|
        invariant forall k | 0 <= k < i :: activeTracks[k].trackId != trackId
      {
        if activeTracks[i].trackId == trackId {
          assert IsFirst(activeTracks + completedTracks, trackId, i, activeTracks[i]);
          return Some(activeTracks[i]);
        }
      }
      for i := 0 to |completedTracks|
        invariant forall k | 0 <= k < i :: completedTracks[k].trackId != trackId
      {
        if completedTracks[i].trackId == trackId {
          assert IsFirst(activeTracks + completedTracks, trackId, |activeTracks| + i, completedTracks[i]);
          return Some(completedTracks[i]);
        }
      }
      return None;
    }
  }

  /** The ids of the deque increase, and the next one is larger; so it is in every reached state. */
  ghost predicate InOrder(s: Tracker) {
    TrackerConservation.IncreasingIds(s.active, s.nextId) && s.nextId >= 1
  }

  lemma UpdateAccounts(cfg: Config, s: Tracker, pts: int, dets: seq<Box>, energies: seq<real>)
    requires AllSound(s.active) && |dets| <= |energies|
    ensures var after := AfterUpdate(cfg, s, pts, dets, energies);
            && TrackerNumbers.AllExplained(cfg, s, after.0, pts, dets, energies)
            && (InOrder(s) ==> forall u | u in after.1 :: TrackerReports.Answered(u, s, after.0))
  {
    TrackerNumbers.DequeExplained(cfg, s, pts, dets, energies);
    if InOrder(s) {
      TrackerReports.EveryUpdateAnswered(cfg, s, pts, dets, energies);
    }
  }

  lemma ExpiryAccounts(cfg: Config, s: Tracker, pts: int)
    ensures TrackerConservation.AllActive(s.active) && InOrder(s) ==>
              exists gone :: && TrackerNumbers.Swept(cfg, s, AfterExpire(cfg, s, pts), gone, pts)
                             && TrackerNumbers.Archived(cfg, s, AfterExpire(cfg, s, pts), gone)
  {
    if TrackerConservation.AllActive(s.active) && InOrder(s) {
      var gone := TrackerNumbers.ExpiryExplained(cfg, s, pts);
    }
  }

  predicate IsFirst(tracks: seq<Track>, trackId: int, i: int, t: Track) {
    && 0 <= i < |tracks| && tracks[i] == t && t.trackId == trackId
    && forall k | 0 <= k < i :: tracks[k].trackId != trackId
  }

  /** The vector of flags marks exactly the claimed detections. */
  predicate Marks(flags: seq<bool>, n: nat, taken: set<int>) {
    |flags| == n && forall d | 0 <= d < n :: flags[d] <==> d in taken
  }

  // ---------- The inner scan ----------

  /** The running maximum after the first n detections. */
  ghost predicate BestSoFar(box: Box, dets: seq<Box>, taken: set<int>, n: nat, iou: real, best: int)
    requires n <= |dets|
  {
    if best < 0 then best == -1 && iou == 0.0 && forall e | 0 <= e < n && e !in taken :: IoU(box, dets[e]) <= 0.0
    else
      && best < n && best !in taken && iou == IoU(box, dets[best]) && iou > 0.0
      && forall e | 0 <= e < n && e !in taken ::
           IoU(box, dets[e]) < iou || (IoU(box, dets[e]) == iou && best <= e)
  }

  lemma ScanFindsChoice(box: Box, dets: seq<Box>, taken: set<int>, threshold: real, iou: real, best: int)
    requires BestSoFar(box, dets, taken, |dets|, iou, best)
    ensures Choice(box, dets, taken, threshold) == if best >= 0 && iou >= threshold then best else -1
  {
    var c := Choice(box, dets, taken, threshold);
    if best >= 0 {
      assert IsBest(box, dets, taken, best);
      OneBest(box, dets, taken, best, c);
      if iou >= threshold {
        assert Claims(box, dets, taken, threshold, best);
      }
    }
  }

  lemma OneBest(box: Box, dets: seq<Box>, taken: set<int>, d: int, e: int)
    requires IsBest(box, dets, taken, d)
    ensures IsBest(box, dets, taken, e) ==> d == e
  {
  }

  lemma TakenGrows(m: seq<int>, t: nat)
    requires t < |m|
    ensures Taken(m[..t + 1]) == Taken(m[..t]) + {m[t]}
  {
  }

  /** The tracks before t are done, the others still as they were. */
  function Halfway(touched: seq<Track>, was: seq<Track>, t: nat): (r: seq<Track>)
    requires t <= |touched| == |was|
    ensures |r| == |was| && (t < |was| ==> r[t] == was[t]) && (t == |was| ==> r == touched)
  {
    touched[..t] + was[t..]
  }

  /** How far the first loop has come after one more track. */
  lemma HalfwayOn(cfg: Config, was: seq<Track>, m: seq<int>, pts: int, dets: seq<Box>, energies: seq<real>, t: nat)
    requires |m| == |was| && Choices(m, |dets|) && |dets| <= |energies| && AllSound(was) && t < |was|
    ensures var touched := Touched(cfg, was, m, pts, dets, energies);
            Halfway(touched, was, t + 1)
            == if m[t] < 0 then Halfway(touched, was, t)
               else Halfway(touched, was, t)[t := Touch(cfg, was[t], pts, dets[m[t]], energies[m[t]])]
  {
    TouchedAt(cfg, was, m, pts, dets, energies, t);
  }

  /** And which updates it has made. */
  lemma UpdatesOn(cfg: Config, was: seq<Track>, m: seq<int>, pts: int, dets: seq<Box>, energies: seq<real>, t: nat)
    requires |m| == |was| && Choices(m, |dets|) && |dets| <= |energies| && AllSound(was) && t < |was|
    ensures var touched := Touched(cfg, was, m, pts, dets, energies);
            MatchedUpdates(was, touched, m, t + 1)
            == MatchedUpdates(was, touched, m, t)
               + if m[t] < 0 then []
                 else [UpdateOf(was[t], Touch(cfg, was[t], pts, dets[m[t]], energies[m[t]]))]
  {
    TouchedAt(cfg, was, m, pts, dets, energies, t);
  }

  lemma Behind<T>(a: seq<T>, b: seq<T>, x: T)
    ensures a + b + [x] == a + (b + [x])
  {
  }

  /** The new tracks after one more detection, and their updates. */
  lemma OneMore(taken: set<int>, d: nat, first: int, pts: int, dets: seq<Box>, energies: seq<real>,
                newcomers: seq<Track>)
    requires |dets| <= |energies| && d < |dets|
    requires newcomers == NewTracks(Unclaimed(taken, d), first, pts, dets, energies)
    ensures var t := NewTrack(first + |newcomers|, pts, dets[d], energies[d]);
            NewTracks(Unclaimed(taken, d + 1), first, pts, dets, energies) == newcomers + if d in taken then [] else [t]
    ensures var t := NewTrack(first + |newcomers|, pts, dets[d], energies[d]);
            NewUpdates(newcomers + [t]) == NewUpdates(newcomers) + [UpdateOfNew(t)]
  {
  }
}
