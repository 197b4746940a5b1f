/**
 One call of the detector after inference: suppress overlapping events, measure their energy, feed
 them to the tracker, and find each event's track among the updates by overlap.
 */
module ArcDetector {
  import opened ArcEvents
  import opened Geometry
  import opened TrackerSpec
  import EnergyEstimator
  import Lifecycle = ArcLifecycleTracker
  import Nms
  import TrackerConservation
  import TrackerReports

  const BOX: ArcFlashEvent -> Box := (e: ArcFlashEvent) => e.box

  const CONFIDENCE: ArcFlashEvent -> real := (e: ArcFlashEvent) => e.confidence

  // ---------- The specification ----------

  function Measured(es: seq<ArcFlashEvent>, uv: EnergyEstimator.Image): (r: seq<ArcFlashEvent>)
    requires uv.Valid()
    ensures |r| == |es|
  {
    seq(|es|, i requires 0 <= i < |es| => es[i].(instantEnergy := EnergyEstimator.Energy(es[i].box, uv)))
  }

  /** The measured survivors of events in sorted order. */
  ghost function Filtered(sorted: seq<ArcFlashEvent>, threshold: real, uv: EnergyEstimator.Image): seq<ArcFlashEvent>
    requires uv.Valid()
  {
    Measured(Nms.Suppressed(sorted, BOX, threshold), uv)
  }

  function Energies(es: seq<ArcFlashEvent>): (r: seq<real>)
    ensures |r| == |es|
  {
    seq(|es|, i requires 0 <= i < |es| => es[i].instantEnergy)
  }

  predicate Near(box: Box, u: TrackUpdate) {
    IoU(box, u.box) > 0.5
  }

  /** The first update whose box overlaps this one by more than half, or -1. */
  function FirstNear(box: Box, us: seq<TrackUpdate>, from: nat): (u: int)
    requires from <= |us|
    ensures u == -1 || (from <= u < |us| && Near(box, us[u]))
    ensures forall v | from <= v < (if u == -1 then |us| else u) :: !Near(box, us[v])
    decreases |us| - from
  {
    if from == |us| then -1
    else if Near(box, us[from]) then from
    else FirstNear(box, us, from + 1)
  }

  function Adopt(e: ArcFlashEvent, u: TrackUpdate): ArcFlashEvent {
    e.(trackId := u.trackId, smoothedEnergy := u.smoothed, cumulativeEnergy := u.cumulative,
       severity := u.severity, trackFrameCount := u.frameCount, trackDurationNs := u.durationNs)
  }

  /** What an event becomes that no track answers for. */
  function Orphan(e: ArcFlashEvent): ArcFlashEvent {
    e.(severity := 1, trackId := 0, trackFrameCount := 1, trackDurationNs := 0,
       smoothedEnergy := e.instantEnergy, cumulativeEnergy := e.instantEnergy)
  }

  function Associate(e: ArcFlashEvent, us: seq<TrackUpdate>): ArcFlashEvent {
    var u := FirstNear(e.box, us, 0);
    var adopted := if u >= 0 then Adopt(e, us[u]) else e;
    if adopted.trackId <= 0 then Orphan(adopted) else adopted
  }

  function Associated(es: seq<ArcFlashEvent>, us: seq<TrackUpdate>): (r: seq<ArcFlashEvent>)
    ensures |r| == |es|
  {
    seq(|es|, i requires 0 <= i < |es| => Associate(es[i], us))
  }

  /** The tracker and the updates after it has been fed these events. */
  ghost function AfterFeeding(cfg: Config, s: Tracker, pts: int, es: seq<ArcFlashEvent>): (Tracker, seq<TrackUpdate>)
    requires AllSound(s.active)
  {
    AfterUpdate(cfg, s, pts, Nms.BoxesOf(es, BOX), Energies(es))
  }

  // ---------- The algorithm ----------

  /**
   detect, from the regions of interest and the network's answers on. `sorted` is the order
   suppression worked in, and `filtered` the measured survivors just before the tracker saw them.
   */
  method Detect(tracker: Lifecycle.ArcLifecycleTracker, regions: seq<Region>, model: Model,
                nmsThreshold: real, pts: int, streamIndex: int, uv: EnergyEstimator.Image)
    returns (events: seq<ArcFlashEvent>, ghost sorted: seq<ArcFlashEvent>, ghost filtered: seq<ArcFlashEvent>)
    requires tracker.Valid() && model.Valid() && uv.Valid() && uv.channels == 1
    modifies tracker
    ensures tracker.Valid()
    ensures regions == [] ==> events == [] && tracker.State() == AfterExpire(tracker.cfg, old(tracker.State()), pts)
    ensures regions != [] ==>
              && multiset(sorted) == multiset(RawEvents(regions, model, pts, streamIndex))
              && Nms.Descending(sorted, CONFIDENCE)
              && filtered == Filtered(sorted, nmsThreshold, uv)
              && var after := AfterFeeding(tracker.cfg, old(tracker.State()), pts, filtered);
                 && tracker.State() == AfterExpire(tracker.cfg, after.0, pts)
                 && events == Associated(filtered, after.1)
                 && AllPublished(events, Nms.Suppressed(sorted, BOX, nmsThreshold), after.0.active, uv)
                 && (IdsInOrder(old(tracker.State())) ==> IdsInOrder(after.0) && AloneIffImproper(events))
                 && (IdsInOrder(old(tracker.State())) && nmsThreshold <= 0.5 ==> AllOwn(events, after.0.active))
    ensures IdsInOrder(old(tracker.State())) ==>
              IdsInOrder(tracker.State()) && (nmsThreshold <= 0.5 ==> Identified(events))
  {
    ghost var before := tracker.State();
    sorted, filtered := [], [];
    if |regions| == 0 {
      tracker.ExpireOldTracks(pts);
      CallKeepsOrder(tracker.cfg, before, pts, [], nmsThreshold);
      return [], [], [];
    }
    var raw := DetectArcInRois(regions, model, pts, streamIndex);
    var survivors := Nms.Run(raw, BOX, CONFIDENCE, nmsThreshold);
    sorted := raw[..];
    var measured, boxes, energies := Measure(survivors, uv);
    filtered := measured[..];
    var updates := tracker.UpdateTracks(pts, boxes, energies);
    tracker.ExpireOldTracks(pts);
    Reassociate(measured, updates);
    events := measured[..];
    SurvivorsReady(regions, model, sorted, nmsThreshold, pts, streamIndex, uv);
    CallKeepsOrder(tracker.cfg, before, pts, filtered, nmsThreshold);
    CallPublishes(tracker.cfg, before, pts, sorted, nmsThreshold, uv);
  }

  method Measure(survivors: seq<ArcFlashEvent>, uv: EnergyEstimator.Image)
    returns (measured: array<ArcFlashEvent>, boxes: seq<Box>, energies: seq<real>)
    requires uv.Valid() && uv.channels == 1
    ensures fresh(measured) && measured[..] == Measured(survivors, uv)
    ensures boxes == Nms.BoxesOf(measured[..], BOX) && energies == Energies(measured[..])
  {
    measured := new ArcFlashEvent[|survivors|](i requires 0 <= i < |survivors| => survivors[i]);
    boxes, energies := [], [];
    for i := 0 to |survivors|
      invariant forall k | i <= k < |survivors| :: measured[k] == survivors[k]
      invariant forall k | 0 <= k < i :: measured[k] == Measured(survivors, uv)[k]
      invariant |boxes| == |energies| == i
      invariant forall k | 0 <= k < i :: boxes[k] == measured[k].box && energies[k] == measured[k].instantEnergy
    {
      var energy := EnergyEstimator.ComputeInstantEnergyGpu(measured[i].box, uv);
      measured[i] := measured[i].(instantEnergy := energy);
      boxes, energies := boxes + [measured[i].box], energies + [energy];
    }
  }

  /** The nested loops: the inner one stops at the first update that is near enough. */
  method Reassociate(events: array<ArcFlashEvent>, updates: seq<TrackUpdate>)
    modifies events
    ensures events[..] == Associated(old(events[..]), updates)
  {
    for i := 0 to events.Length
      invariant forall k | i <= k < events.Length :: events[k] == old(events[k])
      invariant forall k | 0 <= k < i :: events[k] == Associate(old(events[k]), updates)
    {
      var u := 0;
      while u < |updates|
        invariant 0 <= u <= |updates|
        invariant FirstNear(events[i].box, updates, 0) == FirstNear(events[i].box, updates, u)
      {
        if IoU(events[i].box, updates[u].box) > 0.5 {
          break;
        }
        u := u + 1;
      }
      if u < |updates| {
        events[i] := Adopt(events[i], updates[u]);
      }
      if events[i].trackId <= 0 {
        events[i] := Orphan(events[i]);
      }
    }
  }

  // ---------- Every event finds its own track ----------

  /** Separated boxes at a threshold of at most one half: an event is near its own update and no other. */
  lemma NearOnlyItsOwn(es: seq<ArcFlashEvent>, threshold: real, i: int, j: int)
    requires Nms.Separated(es, BOX, threshold) && threshold <= 0.5 && 0 <= i < |es| && 0 <= j < |es|
    ensures IoU(es[i].box, es[j].box) > 0.5 <==> i == j && Proper(es[i].box)
  {
    if !Proper(es[i].box) {
      ImproperOverlapsNothing(es[i].box, es[j].box);
    } else if i == j {
      IoUSelf(es[i].box);
    } else {
      IoUSymmetric(es[i].box, es[j].box);
      assert !Overlaps(BOX(es[if i < j then i else j]), BOX(es[if i < j then j else i]), threshold);
    }
  }

  /** Which update answers event i. */
  lemma OwnUpdate(cfg: Config, s: Tracker, pts: int, es: seq<ArcFlashEvent>, i: int) returns (u: int)
    requires AllSound(s.active) && 0 <= i < |es|
    ensures var us, os := AfterFeeding(cfg, s, pts, es).1, TrackerConservation.Origins(cfg, s, Nms.BoxesOf(es, BOX));
            && |us| == |os| == |es| && 0 <= u < |us| && os[u] == i
            && us[u].box == es[i].box && us[u].instant == es[i].instantEnergy
            && forall v | 0 <= v < |us| && v != u :: 0 <= os[v] < |es| && os[v] != i && us[v].box == es[os[v]].box
  {
    var boxes, energies := Nms.BoxesOf(es, BOX), Energies(es);
    TrackerConservation.OneUpdatePerDetection(cfg, s, pts, boxes, energies);
    var os := TrackerConservation.Origins(cfg, s, boxes);
    assert i in os;
    u :| 0 <= u < |os| && os[u] == i;
  }

  /** The ids of the tracker are in order, as they are when it is constructed and after every call. */
  ghost predicate IdsInOrder(s: Tracker) {
    && AllSound(s.active) && TrackerConservation.AllActive(s.active)
    && TrackerConservation.IncreasingIds(s.active, s.nextId) && TrackerConservation.IdsAccounted(s)
  }

  lemma DetectKeepsIds(cfg: Config, s: Tracker, pts: int, es: seq<ArcFlashEvent>)
    requires IdsInOrder(s)
    ensures IdsInOrder(AfterExpire(cfg, s, pts))
    ensures IdsInOrder(AfterExpire(cfg, AfterFeeding(cfg, s, pts, es).0, pts))
  {
    var boxes, energies := Nms.BoxesOf(es, BOX), Energies(es);
    UpdateKeepsSound(cfg, s, pts, boxes, energies);
    TrackerConservation.UpdateKeepsIds(cfg, s, pts, boxes, energies);
    ExpireKeepsOrder(cfg, s, pts);
    ExpireKeepsOrder(cfg, AfterFeeding(cfg, s, pts, es).0, pts);
  }

  lemma ExpireKeepsOrder(cfg: Config, s: Tracker, pts: int)
    requires IdsInOrder(s)
    ensures IdsInOrder(AfterExpire(cfg, s, pts))
  {
    KeptSound(cfg, s.active, pts);
    TrackerConservation.ExpireConserves(cfg, s, pts, TrackerConservation.AllFrames(s));
  }

  lemma ReachedIdsInOrder(cfg: Config, ops: seq<Op>)
    requires ValidOps(ops)
    ensures IdsInOrder(Run(cfg, ops))
  {
    TrackerConservation.RunConserves(cfg, ops);
  }

  /**
   An event of positive width and height adopts exactly the update made from its own detection; an
   empty or inverted one adopts none.
   */
  lemma EventFindsItsTrack(cfg: Config, s: Tracker, pts: int, es: seq<ArcFlashEvent>, threshold: real, i: int)
    returns (u: int)
    requires IdsInOrder(s) && Nms.Separated(es, BOX, threshold) && threshold <= 0.5 && 0 <= i < |es|
    requires es[i].trackId == 0
    ensures var us, os := AfterFeeding(cfg, s, pts, es).1, TrackerConservation.Origins(cfg, s, Nms.BoxesOf(es, BOX));
            && |us| == |os| && 0 <= u < |us| && os[u] == i && us[u].trackId >= 1
            && us[u].box == es[i].box && us[u].instant == es[i].instantEnergy
            && Associate(es[i], us) == if Proper(es[i].box) then Adopt(es[i], us[u]) else Orphan(es[i])
  {
    u := OwnUpdate(cfg, s, pts, es, i);
    var us, os := AfterFeeding(cfg, s, pts, es).1, TrackerConservation.Origins(cfg, s, Nms.BoxesOf(es, BOX));
    TrackerConservation.UpdateIdsAscend(cfg, s, pts, Nms.BoxesOf(es, BOX), Energies(es));
    forall v | 0 <= v < |us|
      ensures Near(es[i].box, us[v]) <==> v == u && Proper(es[i].box)
    {
      NearOnlyItsOwn(es, threshold, i, if v == u then i else os[v]);
    }
  }

  /** Positive ids are distinct, and 0 marks exactly the boxes without a positive width and height. */
  ghost predicate Identified(events: seq<ArcFlashEvent>) {
    && (forall i | 0 <= i < |events| :: events[i].trackId >= 0)
    && (forall i | 0 <= i < |events| :: events[i].trackId == 0 <==> !Proper(events[i].box))
    && (forall i, j | 0 <= i < j < |events| :: events[i].trackId > 0 ==> events[i].trackId != events[j].trackId)
  }

  lemma DistinctTracks(cfg: Config, s: Tracker, pts: int, es: seq<ArcFlashEvent>, threshold: real, i: int, j: int)
    requires IdsInOrder(s) && Nms.Separated(es, BOX, threshold) && threshold <= 0.5 && 0 <= i < j < |es|
    requires es[i].trackId == es[j].trackId == 0
    ensures var us := AfterFeeding(cfg, s, pts, es).1;
            Associate(es[i], us).trackId > 0 ==> Associate(es[i], us).trackId != Associate(es[j], us).trackId
  {
    var u := EventFindsItsTrack(cfg, s, pts, es, threshold, i);
    var v := EventFindsItsTrack(cfg, s, pts, es, threshold, j);
    TrackerConservation.UpdateIdsAscend(cfg, s, pts, Nms.BoxesOf(es, BOX), Energies(es));
    assert u < v || v < u;
  }

  lemma SeparatedIdentified(cfg: Config, s: Tracker, pts: int, es: seq<ArcFlashEvent>, threshold: real)
    requires IdsInOrder(s) && Nms.Separated(es, BOX, threshold) && threshold <= 0.5
    requires forall i | 0 <= i < |es| :: es[i].trackId == 0
    ensures Identified(Associated(es, AfterFeeding(cfg, s, pts, es).1))
  {
    var events := Associated(es, AfterFeeding(cfg, s, pts, es).1);
    forall i | 0 <= i < |es|
      ensures events[i].trackId >= 0 && (events[i].trackId == 0 <==> !Proper(events[i].box))
    {
      var u := EventFindsItsTrack(cfg, s, pts, es, threshold, i);
    }
    forall i, j | 0 <= i < j < |es|
      ensures events[i].trackId > 0 ==> events[i].trackId != events[j].trackId
    {
      DistinctTracks(cfg, s, pts, es, threshold, i, j);
    }
  }

  /** Whatever the network reports: the survivors are separated, measured and not yet tracked. */
  lemma SurvivorsReady(regions: seq<Region>, model: Model, sorted: seq<ArcFlashEvent>, threshold: real,
                       pts: int, streamIndex: int, uv: EnergyEstimator.Image)
    requires model.Valid() && uv.Valid()
    requires multiset(sorted) == multiset(RawEvents(regions, model, pts, streamIndex))
    ensures var es := Filtered(sorted, threshold, uv);
            && Nms.Separated(es, BOX, threshold)
            && forall i | 0 <= i < |es| :: es[i].trackId == 0
  {
    var kept := Nms.Suppressed(sorted, BOX, threshold);
    var es := Measured(kept, uv);
    Nms.SurvivorsSeparated(sorted, BOX, threshold);
    RawEventsFresh(regions, model, pts, streamIndex);
    forall i | 0 <= i < |sorted|
      ensures sorted[i].trackId == 0
    {
      assert sorted[i] in multiset(RawEvents(regions, model, pts, streamIndex));
      assert Fresh(sorted[i], pts, streamIndex);
    }
    forall i, j | 0 <= i < j < |es|
      ensures !Overlaps(BOX(es[i]), BOX(es[j]), threshold)
    {
      assert !Overlaps(BOX(kept[i]), BOX(kept[j]), threshold);
    }
  }

  // ---------- What is published ----------

  /** The event says of its track what the track says of itself; the two overlap by more than half. */
  predicate FromTrack(e: ArcFlashEvent, t: Track) {
    && e.trackId == t.trackId && e.severity == t.severity
    && e.smoothedEnergy == t.smoothed && e.cumulativeEnergy == t.cumulative
    && e.trackFrameCount == t.frameCount && e.trackDurationNs == t.lastPts - t.startPts
    && IoU(e.box, t.box) > 0.5
  }

  /** The event has no track: it is of level 1, one frame old, and has no energy but its own. */
  predicate Alone(e: ArcFlashEvent) {
    && e.trackId == 0 && e.severity == 1 && e.trackFrameCount == 1 && e.trackDurationNs == 0
    && e.smoothedEnergy == e.cumulativeEnergy == e.instantEnergy
  }

  ghost predicate Placed(e: ArcFlashEvent, tracks: seq<Track>) {
    if e.trackId > 0 then exists t :: t in tracks && FromTrack(e, t) else Alone(e)
  }

  /** e is what was seen, at its place, with its energy in the image. */
  predicate Sighting(e: ArcFlashEvent, seen: ArcFlashEvent, uv: EnergyEstimator.Image)
    requires uv.Valid()
  {
    && e.box == seen.box && e.confidence == seen.confidence && e.ptsNs == seen.ptsNs
    && e.streamIndex == seen.streamIndex && e.intensity == seen.intensity
    && e.instantEnergy == EnergyEstimator.Energy(seen.box, uv)
  }

  /** The events are the survivors, measured, and each of them reports a track of the deque or none. */
  ghost predicate AllPublished(events: seq<ArcFlashEvent>, survivors: seq<ArcFlashEvent>, tracks: seq<Track>,
                               uv: EnergyEstimator.Image)
    requires uv.Valid()
  {
    && |events| == |survivors|
    && forall i | 0 <= i < |events| :: Sighting(events[i], survivors[i], uv) && Placed(events[i], tracks)
  }

  /** The track an event reports is the one its own detection was matched to or has opened. */
  ghost predicate Own(e: ArcFlashEvent, tracks: seq<Track>) {
    e.trackId > 0 ==> exists t :: t in tracks && FromTrack(e, t) && t.box == e.box && t.instant == e.instantEnergy
  }

  ghost predicate AllOwn(events: seq<ArcFlashEvent>, tracks: seq<Track>) {
    forall i | 0 <= i < |events| :: Own(events[i], tracks)
  }

  lemma AssociateKeepsSighting(e: ArcFlashEvent, us: seq<TrackUpdate>, seen: ArcFlashEvent, uv: EnergyEstimator.Image)
    requires uv.Valid() && Sighting(e, seen, uv)
    ensures Sighting(Associate(e, us), seen, uv)
  {
  }

  /** What association makes of an event that is near an update with a track, or near none. */
  lemma AssociatePlaces(e: ArcFlashEvent, us: seq<TrackUpdate>, tracks: seq<Track>)
    requires e.trackId == 0
    requires forall u | u in us :: exists t :: t in tracks && TrackerReports.Describes(u, t)
    ensures Placed(Associate(e, us), tracks)
  {
    var u := FirstNear(e.box, us, 0);
    if u >= 0 && us[u].trackId > 0 {
      assert us[u] in us;
      var t :| t in tracks && TrackerReports.Describes(us[u], t);
      assert FromTrack(Associate(e, us), t);
    }
  }

  lemma UpdatesHaveTracks(cfg: Config, s: Tracker, pts: int, es: seq<ArcFlashEvent>)
    requires AllSound(s.active)
    ensures var after := AfterFeeding(cfg, s, pts, es);
            forall u | u in after.1 :: exists t :: t in after.0.active && TrackerReports.Describes(u, t)
  {
    var after := AfterFeeding(cfg, s, pts, es);
    forall u | u in after.1
      ensures exists t :: t in after.0.active && TrackerReports.Describes(u, t)
    {
      var k :| 0 <= k < |after.1| && after.1[k] == u;
      var j := TrackerReports.UpdateHasTrack(cfg, s, pts, Nms.BoxesOf(es, BOX), Energies(es), k);
      assert after.0.active[j] in after.0.active;
    }
  }

  lemma SurvivorsPublished(cfg: Config, s: Tracker, pts: int, survivors: seq<ArcFlashEvent>, uv: EnergyEstimator.Image)
    requires AllSound(s.active) && uv.Valid()
    requires forall i | 0 <= i < |survivors| :: survivors[i].trackId == 0
    ensures var after := AfterFeeding(cfg, s, pts, Measured(survivors, uv));
            AllPublished(Associated(Measured(survivors, uv), after.1), survivors, after.0.active, uv)
  {
    var es := Measured(survivors, uv);
    var after := AfterFeeding(cfg, s, pts, es);
    UpdatesHaveTracks(cfg, s, pts, es);
    forall i | 0 <= i < |es|
      ensures Sighting(Associate(es[i], after.1), survivors[i], uv) && Placed(Associate(es[i], after.1), after.0.active)
    {
      AssociateKeepsSighting(es[i], after.1, survivors[i], uv);
      AssociatePlaces(es[i], after.1, after.0.active);
    }
  }

  /** Below one half, the track reported has the box and the energy of the event itself. */
  lemma EventOwnsTrack(cfg: Config, s: Tracker, pts: int, es: seq<ArcFlashEvent>, threshold: real, i: int)
    requires IdsInOrder(s) && Nms.Separated(es, BOX, threshold) && threshold <= 0.5 && 0 <= i < |es|
    requires es[i].trackId == 0
    ensures var after := AfterFeeding(cfg, s, pts, es); Own(Associate(es[i], after.1), after.0.active)
  {
    var after := AfterFeeding(cfg, s, pts, es);
    var u := EventFindsItsTrack(cfg, s, pts, es, threshold, i);
    var j := TrackerReports.UpdateHasTrack(cfg, s, pts, Nms.BoxesOf(es, BOX), Energies(es), u);
    if Proper(es[i].box) {
      IoUSelf(es[i].box);
      var t := after.0.active[j];
      assert t in after.0.active && FromTrack(Associate(es[i], after.1), t);
    }
  }

  ghost predicate AloneIffImproper(events: seq<ArcFlashEvent>) {
    forall i | 0 <= i < |events| :: events[i].trackId == 0 <==> !Proper(events[i].box)
  }

  /** At any threshold: an event has a track exactly if its box has a positive width and height. */
  lemma TrackedIffProper(cfg: Config, s: Tracker, pts: int, es: seq<ArcFlashEvent>, i: int)
    requires IdsInOrder(s) && 0 <= i < |es| && es[i].trackId == 0
    ensures Associate(es[i], AfterFeeding(cfg, s, pts, es).1).trackId == 0 <==> !Proper(es[i].box)
  {
    var us := AfterFeeding(cfg, s, pts, es).1;
    var u := OwnUpdate(cfg, s, pts, es, i);
    TrackerConservation.UpdateIdsAscend(cfg, s, pts, Nms.BoxesOf(es, BOX), Energies(es));
    if Proper(es[i].box) {
      IoUSelf(es[i].box);
      assert Near(es[i].box, us[u]);
    } else {
      forall v | 0 <= v < |us|
        ensures !Near(es[i].box, us[v])
      {
        ImproperOverlapsNothing(es[i].box, us[v].box);
      }
    }
  }

  lemma FeedingKeepsIds(cfg: Config, s: Tracker, pts: int, es: seq<ArcFlashEvent>)
    requires IdsInOrder(s)
    ensures IdsInOrder(AfterFeeding(cfg, s, pts, es).0)
  {
    UpdateKeepsSound(cfg, s, pts, Nms.BoxesOf(es, BOX), Energies(es));
    TrackerConservation.UpdateKeepsIds(cfg, s, pts, Nms.BoxesOf(es, BOX), Energies(es));
  }

  /** What one call publishes, whatever the tracker has seen before. */
  lemma CallPublishes(cfg: Config, s: Tracker, pts: int, sorted: seq<ArcFlashEvent>, threshold: real,
                      uv: EnergyEstimator.Image)
    requires AllSound(s.active) && uv.Valid()
    requires var es := Filtered(sorted, threshold, uv);
             Nms.Separated(es, BOX, threshold) && forall i | 0 <= i < |es| :: es[i].trackId == 0
    ensures var es := Filtered(sorted, threshold, uv);
            var after := AfterFeeding(cfg, s, pts, es);
            && AllPublished(Associated(es, after.1), Nms.Suppressed(sorted, BOX, threshold), after.0.active, uv)
            && (IdsInOrder(s) ==> IdsInOrder(after.0) && AloneIffImproper(Associated(es, after.1)))
            && (IdsInOrder(s) && threshold <= 0.5 ==> AllOwn(Associated(es, after.1), after.0.active))
  {
    var survivors := Nms.Suppressed(sorted, BOX, threshold);
    var es := Filtered(sorted, threshold, uv);
    forall i | 0 <= i < |survivors|
      ensures survivors[i].trackId == 0
    {
      assert es[i].trackId == 0;
    }
    SurvivorsPublished(cfg, s, pts, survivors, uv);
    if IdsInOrder(s) {
      FeedingKeepsIds(cfg, s, pts, es);
      forall i | 0 <= i < |es| {
        TrackedIffProper(cfg, s, pts, es, i);
      }
      if threshold <= 0.5 {
        forall i | 0 <= i < |es| {
          EventOwnsTrack(cfg, s, pts, es, threshold, i);
        }
      }
    }
  }

  /** What a call keeps, and what it achieves for a threshold of at most one half. */
  lemma CallKeepsOrder(cfg: Config, s: Tracker, pts: int, es: seq<ArcFlashEvent>, threshold: real)
    requires AllSound(s.active) && Nms.Separated(es, BOX, threshold)
    requires forall i | 0 <= i < |es| :: es[i].trackId == 0
    ensures IdsInOrder(s) ==>
              && IdsInOrder(AfterExpire(cfg, s, pts))
              && IdsInOrder(AfterExpire(cfg, AfterFeeding(cfg, s, pts, es).0, pts))
              && (threshold <= 0.5 ==> Identified(Associated(es, AfterFeeding(cfg, s, pts, es).1)))
  {
    if IdsInOrder(s) {
      DetectKeepsIds(cfg, s, pts, es);
      if threshold <= 0.5 {
        SeparatedIdentified(cfg, s, pts, es, threshold);
      }
    }
  }

  /** So for a threshold of at most one half, every call after any history identifies every event. */
  lemma DetectIdentifies(cfg: Config, ops: seq<Op>, regions: seq<Region>, model: Model, sorted: seq<ArcFlashEvent>,
                         threshold: real, pts: int, streamIndex: int, uv: EnergyEstimator.Image)
    requires ValidOps(ops) && model.Valid() && uv.Valid() && threshold <= 0.5
    requires multiset(sorted) == multiset(RawEvents(regions, model, pts, streamIndex))
    ensures var es := Filtered(sorted, threshold, uv);
            Identified(Associated(es, AfterFeeding(cfg, Run(cfg, ops), pts, es).1))
  {
    ReachedIdsInOrder(cfg, ops);
    SurvivorsReady(regions, model, sorted, threshold, pts, streamIndex, uv);
    SeparatedIdentified(cfg, Run(cfg, ops), pts, Filtered(sorted, threshold, uv), threshold);
  }

  /** At every threshold, every call after any history publishes the survivors, each with its track or alone. */
  lemma DetectPublishes(cfg: Config, ops: seq<Op>, regions: seq<Region>, model: Model, sorted: seq<ArcFlashEvent>,
                        threshold: real, pts: int, streamIndex: int, uv: EnergyEstimator.Image)
    requires ValidOps(ops) && model.Valid() && uv.Valid()
    requires multiset(sorted) == multiset(RawEvents(regions, model, pts, streamIndex))
    ensures var es := Filtered(sorted, threshold, uv);
            var after := AfterFeeding(cfg, Run(cfg, ops), pts, es);
            var events := Associated(es, after.1);
            && AllPublished(events, Nms.Suppressed(sorted, BOX, threshold), after.0.active, uv)
            && IdsInOrder(after.0) && AloneIffImproper(events)
            && (threshold <= 0.5 ==> AllOwn(events, after.0.active))
  {
    ReachedIdsInOrder(cfg, ops);
    SurvivorsReady(regions, model, sorted, threshold, pts, streamIndex, uv);
    CallPublishes(cfg, Run(cfg, ops), pts, sorted, threshold, uv);
  }

  // ---------- One half is the limit ----------

  /** One region with two detections that overlap by more than half, yet not enough for the threshold. */
  function Confusing(threshold: real): (r: Region) {
    var w := if threshold < 1.0 then (0.5 + threshold) / 2.0 else 0.75;
    Region(Box(0.0, 0.0, 64.0, 64.0),
           [Candidate(Box(0.0, 0.0, 1.0, 1.0), 0.9), Candidate(Box(0.0, 0.0, w, 1.0), 0.8)])
  }

  lemma ConfusingOverlap(threshold: real)
    requires threshold > 0.5
    ensures var a, b := Confusing(threshold).detections[0].box, Confusing(threshold).detections[1].box;
            0.5 < IoU(a, b) <= threshold && 0.5 < IoU(b, a) && 0.5 < IoU(a, a)
  {
    var a, b := Confusing(threshold).detections[0].box, Confusing(threshold).detections[1].box;
    IoUSymmetric(a, b);
    IoUSelf(a);
  }

  lemma ConfusingEvents(threshold: real, model: Model, pts: int)
    requires threshold > 0.5 && model.Valid()
    ensures var es := RawEvents([Confusing(threshold)], model, pts, 0);
            && |es| == 2 && es[0].confidence == 0.9 && es[1].confidence == 0.8
            && 0.5 < IoU(es[0].box, es[1].box) <= threshold
            && 0.5 < IoU(es[1].box, es[0].box) && 0.5 < IoU(es[0].box, es[0].box)
  {
    var region := Confusing(threshold);
    var a, b := region.detections[0].box, region.detections[1].box;
    ConfusingOverlap(threshold);
    MappingKeepsOverlap(a, b, region.roi, model);
    MappingKeepsOverlap(b, a, region.roi, model);
    MappingKeepsOverlap(a, a, region.roi, model);
    EventsOfOneRegion(region, model, pts, 0);
  }

  lemma PairDescends(es: seq<ArcFlashEvent>)
    requires |es| == 2 && es[0].confidence >= es[1].confidence
    ensures Nms.Descending(es, CONFIDENCE)
  {
  }

  /** A fresh tracker answers the first of its detections with track 1. */
  lemma FreshTracker(cfg: Config, pts: int, es: seq<ArcFlashEvent>)
    requires |es| == 2
    ensures var us := AfterFeeding(cfg, EMPTY, pts, es).1;
            |us| == 2 && us[0].trackId == 1 && us[0].box == es[0].box
  {
    var none: set<int> := {};
    assert Taken([]) == none;
    assert Unclaimed(none, 0) == [];
    assert Unclaimed(none, 1) == [0];
    assert Unclaimed(none, 2) == [0, 1];
    assert Boxes(EMPTY.active) == [];
  }

  lemma BothSurvive(sorted: seq<ArcFlashEvent>, threshold: real, uv: EnergyEstimator.Image)
    requires |sorted| == 2 && uv.Valid() && IoU(sorted[0].box, sorted[1].box) <= threshold && threshold > 0.0
    ensures var es := Filtered(sorted, threshold, uv);
            |es| == 2 && es[0].box == sorted[0].box && es[1].box == sorted[1].box
  {
    assert !Overlaps(BOX(sorted[0]), BOX(sorted[1]), threshold);
    Nms.SeparatedAllSurvive(sorted, BOX, threshold, 2);
  }

  lemma BothAdopt(cfg: Config, pts: int, es: seq<ArcFlashEvent>)
    requires |es| == 2 && IoU(es[0].box, es[0].box) > 0.5 && IoU(es[1].box, es[0].box) > 0.5
    ensures !Identified(Associated(es, AfterFeeding(cfg, EMPTY, pts, es).1))
  {
    FreshTracker(cfg, pts, es);
    var us := AfterFeeding(cfg, EMPTY, pts, es).1;
    assert Near(es[0].box, us[0]) && Near(es[1].box, us[0]);
    var events := Associated(es, us);
    assert events[0].trackId == 1 && events[1].trackId == 1;
  }

  /** Fed to a fresh tracker, the survivors of these events are not identified. */
  ghost predicate Confuses(cfg: Config, sorted: seq<ArcFlashEvent>, threshold: real, pts: int,
                           uv: EnergyEstimator.Image)
    requires uv.Valid()
  {
    var es := Filtered(sorted, threshold, uv);
    !Identified(Associated(es, AfterFeeding(cfg, EMPTY, pts, es).1))
  }

  lemma PairConfuses(cfg: Config, sorted: seq<ArcFlashEvent>, threshold: real, pts: int, uv: EnergyEstimator.Image)
    requires |sorted| == 2 && uv.Valid() && threshold > 0.0 && IoU(sorted[0].box, sorted[1].box) <= threshold
    requires IoU(sorted[0].box, sorted[0].box) > 0.5 && IoU(sorted[1].box, sorted[0].box) > 0.5
    ensures Confuses(cfg, sorted, threshold, pts, uv)
  {
    BothSurvive(sorted, threshold, uv);
    BothAdopt(cfg, pts, Filtered(sorted, threshold, uv));
  }

  /** For any larger threshold a fresh tracker already gives two survivors the same track. */
  lemma AboveHalfConfuses(cfg: Config, model: Model, threshold: real, pts: int, uv: EnergyEstimator.Image)
    requires threshold > 0.5 && model.Valid() && uv.Valid()
    ensures var sorted := RawEvents([Confusing(threshold)], model, pts, 0);
            Nms.Descending(sorted, CONFIDENCE) && Confuses(cfg, sorted, threshold, pts, uv)
  {
    ConfusingEvents(threshold, model, pts);
    PairDescends(RawEvents([Confusing(threshold)], model, pts, 0));
    PairConfuses(cfg, RawEvents([Confusing(threshold)], model, pts, 0), threshold, pts, uv);
  }
}
