/**
 From the network's answers to events of the image: the detections of every region large enough, moved
 and stretched to where they are in the image.
 */
module ArcEvents {
  import opened Common
  import opened Geometry
  import opened TrackerSpec

  /** A detection of the ultraviolet network, in the coordinates of the network's input. */
  datatype Candidate = Candidate(box: Box, confidence: real)

  /** A region of interest of the image, and what the network detects in it. */
  datatype Region = Region(roi: Box, detections: seq<Candidate>)

  /** The size of the network's input. */
  datatype Model = Model(width: nat, height: nat) {
    predicate Valid() {
      width > 0 && height > 0
    }
  }

  datatype ArcFlashEvent = ArcFlashEvent(
    box: Box, confidence: real, ptsNs: int, streamIndex: int, intensity: real,
    instantEnergy: real, smoothedEnergy: real, cumulativeEnergy: real, severity: Level,
    trackId: int, trackFrameCount: int, trackDurationNs: int)

  /** Regions whose sides, cut to whole pixels, are short are skipped. */
  predicate TooSmall(roi: Box) {
    Truncate(roi.x2 - roi.x1) < 32 || Truncate(roi.y2 - roi.y1) < 32
  }

  /** One coordinate: from n pixels of the network's input to a side of the region that begins at lo. */
  function Mapped(x: real, n: nat, side: real, lo: real): real
    requires n > 0
  {
    x / n as real * Truncate(side) as real + lo
  }

  /** The detected box in image coordinates. */
  function ToImage(b: Box, roi: Box, model: Model): Box
    requires model.Valid()
  {
    var w, h := roi.x2 - roi.x1, roi.y2 - roi.y1;
    Box(Mapped(b.x1, model.width, w, roi.x1), Mapped(b.y1, model.height, h, roi.y1),
        Mapped(b.x2, model.width, w, roi.x1), Mapped(b.y2, model.height, h, roi.y1))
  }

  function RawEvent(c: Candidate, roi: Box, model: Model, pts: int, streamIndex: int): ArcFlashEvent
    requires model.Valid()
  {
    var box := ToImage(c.box, roi, model);
    var intensity := if Area(box) > 0.0 then c.confidence / Area(box) else 0.0;
    ArcFlashEvent(box, c.confidence, pts, streamIndex, intensity, 0.0, 0.0, 0.0, 1, 0, 0, 0)
  }

  function EventsIn(region: Region, model: Model, pts: int, streamIndex: int): seq<ArcFlashEvent>
    requires model.Valid()
  {
    if TooSmall(region.roi) then []
    else
      seq(|region.detections|, k requires 0 <= k < |region.detections| =>
        RawEvent(region.detections[k], region.roi, model, pts, streamIndex))
  }

  /** The events of all regions, one region after the other. */
  function RawEvents(regions: seq<Region>, model: Model, pts: int, streamIndex: int): seq<ArcFlashEvent>
    requires model.Valid()
  {
    if regions == [] then []
    else
      RawEvents(regions[..|regions| - 1], model, pts, streamIndex)
      + EventsIn(regions[|regions| - 1], model, pts, streamIndex)
  }

  /** An event of this frame that has neither an energy nor a track yet. */
  predicate Fresh(e: ArcFlashEvent, pts: int, streamIndex: int) {
    && e.severity == 1 && e.trackId == e.trackFrameCount == e.trackDurationNs == 0
    && e.instantEnergy == e.smoothedEnergy == e.cumulativeEnergy == 0.0
    && e.ptsNs == pts && e.streamIndex == streamIndex
  }

  /** x' is as far along a side of w whole pixels, which begins at lo, as x is along n pixels. */
  predicate Proportional(x: real, n: nat, x': real, w: int, lo: real) {
    (x' - lo) * n as real == x * w as real
  }

  /** The number of whole pixels of a side. */
  predicate Whole(w: int, side: real) {
    w as real <= side < (w + 1) as real
  }

  /** Both ends of an interval are carried over to a side of w whole pixels, from lo to hi. */
  predicate AlongSide(x1: real, x2: real, n: nat, x1': real, x2': real, w: int, lo: real, hi: real) {
    Whole(w, hi - lo) && Proportional(x1, n, x1', w, lo) && Proportional(x2, n, x2', w, lo)
  }

  /** m is b carried over from the network's input to a region of w by h whole pixels. */
  predicate CarriedOver(b: Box, m: Box, roi: Box, model: Model, w: int, h: int) {
    && AlongSide(b.x1, b.x2, model.width, m.x1, m.x2, w, roi.x1, roi.x2)
    && AlongSide(b.y1, b.y2, model.height, m.y1, m.y2, h, roi.y1, roi.y2)
  }

  ghost predicate AtItsPlace(b: Box, m: Box, roi: Box, model: Model) {
    exists w, h :: CarriedOver(b, m, roi, model, w, h)
  }

  /** e is the detection c of a region: carried over, with its confidence, and that spread over its area. */
  ghost predicate Shows(e: ArcFlashEvent, c: Candidate, roi: Box, model: Model) {
    && AtItsPlace(c.box, e.box, roi, model)
    && e.confidence == c.confidence
    && SpreadOver(e.intensity, c.confidence, Area(e.box))
  }

  /** e reports the k-th detection of region r. */
  ghost predicate Reports(e: ArcFlashEvent, regions: seq<Region>, model: Model, r: int, k: int)
    requires model.Valid()
  {
    Detected(regions, r, k) && Shows(e, regions[r].detections[k], regions[r].roi, model)
  }

  /** At least 32 pixels wide and high. */
  predicate Large(roi: Box) {
    roi.x2 - roi.x1 >= 32.0 && roi.y2 - roi.y1 >= 32.0
  }

  /** There is a k-th detection of region r, and the region is large enough. */
  predicate Detected(regions: seq<Region>, r: int, k: int) {
    0 <= r < |regions| && 0 <= k < |regions[r].detections| && Large(regions[r].roi)
  }

  lemma LargeEnough(roi: Box)
    ensures Large(roi) <==> !TooSmall(roi)
  {
  }

  /** The number of detections in the large ones of the first n regions. */
  function Before(regions: seq<Region>, n: nat): nat
    requires n <= |regions|
  {
    if n == 0 then 0
    else Before(regions, n - 1) + (if Large(regions[n - 1].roi) then |regions[n - 1].detections| else 0)
  }

  /** The k-th event of these shows c. */
  ghost predicate ShownAt(es: seq<ArcFlashEvent>, k: int, c: Candidate, roi: Box, model: Model) {
    0 <= k < |es| && Shows(es[k], c, roi, model)
  }

  /** One event for each detection, region after region. */
  ghost predicate RegionByRegion(es: seq<ArcFlashEvent>, regions: seq<Region>, model: Model) {
    && |es| == Before(regions, |regions|)
    && forall r, k | Detected(regions, r, k) ::
         ShownAt(es, Before(regions, r) + k, regions[r].detections[k], regions[r].roi, model)
  }

  lemma MappedProportional(x: real, n: nat, side: real, lo: real)
    requires n > 0
    ensures Proportional(x, n, Mapped(x, n, side, lo), Truncate(side), lo)
  {
    var q, w := x / n as real, Truncate(side) as real;
    assert q * n as real == x;
    assert (q * w) * n as real == (q * n as real) * w;
  }

  lemma TruncateWhole(side: real)
    requires side >= 0.0
    ensures Whole(Truncate(side), side)
  {
  }

  lemma MappedAlongSide(x1: real, x2: real, n: nat, lo: real, hi: real)
    requires n > 0 && hi >= lo
    ensures AlongSide(x1, x2, n, Mapped(x1, n, hi - lo, lo), Mapped(x2, n, hi - lo, lo), Truncate(hi - lo), lo, hi)
  {
    TruncateWhole(hi - lo);
    MappedProportional(x1, n, hi - lo, lo);
    MappedProportional(x2, n, hi - lo, lo);
  }

  lemma ToImageCarries(b: Box, roi: Box, model: Model)
    requires model.Valid() && roi.x2 >= roi.x1 && roi.y2 >= roi.y1
    ensures CarriedOver(b, ToImage(b, roi, model), roi, model, Truncate(roi.x2 - roi.x1), Truncate(roi.y2 - roi.y1))
  {
    MappedAlongSide(b.x1, b.x2, model.width, roi.x1, roi.x2);
    MappedAlongSide(b.y1, b.y2, model.height, roi.y1, roi.y2);
  }

  /** The confidence spread over an area, if there is one. */
  predicate SpreadOver(intensity: real, confidence: real, area: real) {
    if area > 0.0 then intensity * area == confidence else intensity == 0.0
  }

  lemma QuotientSpreads(confidence: real, area: real)
    ensures SpreadOver(if area > 0.0 then confidence / area else 0.0, confidence, area)
  {
  }

  lemma ShownByParts(e: ArcFlashEvent, c: Candidate, roi: Box, model: Model, w: int, h: int)
    requires CarriedOver(c.box, e.box, roi, model, w, h)
    requires e.confidence == c.confidence && SpreadOver(e.intensity, c.confidence, Area(e.box))
    ensures Shows(e, c, roi, model)
  {
  }

  lemma RawEventShows(c: Candidate, roi: Box, model: Model, pts: int, streamIndex: int)
    requires model.Valid() && roi.x2 >= roi.x1 && roi.y2 >= roi.y1
    ensures Shows(RawEvent(c, roi, model, pts, streamIndex), c, roi, model)
  {
    ToImageCarries(c.box, roi, model);
    QuotientSpreads(c.confidence, Area(ToImage(c.box, roi, model)));
    ShownByParts(RawEvent(c, roi, model, pts, streamIndex), c, roi, model,
                 Truncate(roi.x2 - roi.x1), Truncate(roi.y2 - roi.y1));
  }

  ghost predicate Reported(es: seq<ArcFlashEvent>, regions: seq<Region>, model: Model, r: int, k: int)
    requires model.Valid()
  {
    exists e :: e in es && Reports(e, regions, model, r, k)
  }

  ghost predicate ReportsSome(e: ArcFlashEvent, regions: seq<Region>, model: Model)
    requires model.Valid()
  {
    exists r, k :: Reports(e, regions, model, r, k)
  }

  /** The events report exactly the detections of the regions large enough. */
  ghost predicate ReportsExactly(es: seq<ArcFlashEvent>, regions: seq<Region>, model: Model)
    requires model.Valid()
  {
    && (forall e | e in es :: ReportsSome(e, regions, model))
    && (forall r, k | Detected(regions, r, k) :: Reported(es, regions, model, r, k))
  }

  ghost predicate AllFresh(es: seq<ArcFlashEvent>, pts: int, streamIndex: int) {
    forall e | e in es :: Fresh(e, pts, streamIndex)
  }

  lemma EventsOfOneRegion(region: Region, model: Model, pts: int, streamIndex: int)
    requires model.Valid()
    ensures RawEvents([region], model, pts, streamIndex) == EventsIn(region, model, pts, streamIndex)
  {
    assert [region][..0] == [];
  }

  // ---------- What the events say ----------

  lemma {:induction false} RawEventsFresh(regions: seq<Region>, model: Model, pts: int, streamIndex: int)
    requires model.Valid()
    ensures AllFresh(RawEvents(regions, model, pts, streamIndex), pts, streamIndex)
  {
    if regions == [] {
    } else {
      RawEventsFresh(regions[..|regions| - 1], model, pts, streamIndex);
    }
  }

  /** Which detection an event was made from. */
  lemma {:induction false} EventOrigin(regions: seq<Region>, model: Model, pts: int, streamIndex: int, e: ArcFlashEvent)
    returns (r: int, k: int)
    requires model.Valid() && e in RawEvents(regions, model, pts, streamIndex)
    ensures 0 <= r < |regions| && 0 <= k < |regions[r].detections| && !TooSmall(regions[r].roi)
    ensures e == RawEvent(regions[r].detections[k], regions[r].roi, model, pts, streamIndex)
  {
    var n := |regions| - 1;
    if e in RawEvents(regions[..n], model, pts, streamIndex) {
      r, k := EventOrigin(regions[..n], model, pts, streamIndex, e);
    } else {
      var events := EventsIn(regions[n], model, pts, streamIndex);
      r := n;
      k :| 0 <= k < |events| && events[k] == e;
    }
  }

  lemma EventReports(regions: seq<Region>, model: Model, pts: int, streamIndex: int, e: ArcFlashEvent)
    requires model.Valid() && e in RawEvents(regions, model, pts, streamIndex)
    ensures ReportsSome(e, regions, model)
  {
    var r, k := EventOrigin(regions, model, pts, streamIndex, e);
    LargeEnough(regions[r].roi);
    RawEventShows(regions[r].detections[k], regions[r].roi, model, pts, streamIndex);
    assert Reports(e, regions, model, r, k);
  }

  lemma {:induction false} DetectionListed(regions: seq<Region>, model: Model, pts: int, streamIndex: int, r: int,
                                           k: int)
    requires model.Valid() && 0 <= r < |regions| && 0 <= k < |regions[r].detections| && !TooSmall(regions[r].roi)
    ensures RawEvent(regions[r].detections[k], regions[r].roi, model, pts, streamIndex)
            in RawEvents(regions, model, pts, streamIndex)
  {
    var n := |regions| - 1;
    if r < n {
      DetectionListed(regions[..n], model, pts, streamIndex, r, k);
    } else {
      assert EventsIn(regions[n], model, pts, streamIndex)[k]
          == RawEvent(regions[r].detections[k], regions[r].roi, model, pts, streamIndex);
    }
  }

  lemma DetectionReported(regions: seq<Region>, model: Model, pts: int, streamIndex: int, r: int, k: int)
    requires model.Valid() && Detected(regions, r, k)
    ensures Reported(RawEvents(regions, model, pts, streamIndex), regions, model, r, k)
  {
    LargeEnough(regions[r].roi);
    DetectionListed(regions, model, pts, streamIndex, r, k);
    RawEventShows(regions[r].detections[k], regions[r].roi, model, pts, streamIndex);
    assert Reports(RawEvent(regions[r].detections[k], regions[r].roi, model, pts, streamIndex), regions, model, r, k);
  }

  lemma RawEventsExact(regions: seq<Region>, model: Model, pts: int, streamIndex: int)
    requires model.Valid()
    ensures ReportsExactly(RawEvents(regions, model, pts, streamIndex), regions, model)
  {
    forall e | e in RawEvents(regions, model, pts, streamIndex)
      ensures ReportsSome(e, regions, model)
    {
      EventReports(regions, model, pts, streamIndex, e);
    }
    forall r, k | Detected(regions, r, k)
      ensures Reported(RawEvents(regions, model, pts, streamIndex), regions, model, r, k)
    {
      DetectionReported(regions, model, pts, streamIndex, r, k);
    }
  }

  function Joined<T>(parts: seq<seq<T>>): seq<T> {
    if parts == [] then [] else Joined(parts[..|parts| - 1]) + parts[|parts| - 1]
  }

  /** Where part n begins. */
  function Start<T>(parts: seq<seq<T>>, n: nat): nat
    requires n <= |parts|
  {
    if n == 0 then 0 else Start(parts, n - 1) + |parts[n - 1]|
  }

  lemma {:induction false} StartOfPrefix<T>(parts: seq<seq<T>>, m: nat, n: nat)
    requires n <= m <= |parts|
    ensures Start(parts[..m], n) == Start(parts, n)
  {
    if n == 0 {
    } else {
      StartOfPrefix(parts, m, n - 1);
    }
  }

  lemma {:induction false} JoinedCount<T>(parts: seq<seq<T>>)
    ensures |Joined(parts)| == Start(parts, |parts|)
  {
    var n := |parts| - 1;
    if parts == [] {
    } else {
      JoinedCount(parts[..n]);
      StartOfPrefix(parts, n, n);
    }
  }

  lemma {:induction false} JoinedAt<T>(parts: seq<seq<T>>, r: nat, k: nat)
    requires r < |parts| && k < |parts[r]|
    ensures var i := Start(parts, r) + k; i < |Joined(parts)| && Joined(parts)[i] == parts[r][k]
  {
    var n := |parts| - 1;
    if r < n {
      JoinedAt(parts[..n], r, k);
      StartOfPrefix(parts, n, r);
    } else {
      JoinedCount(parts[..n]);
      StartOfPrefix(parts, n, n);
    }
  }

  function Parts(regions: seq<Region>, model: Model, pts: int, streamIndex: int): (parts: seq<seq<ArcFlashEvent>>)
    requires model.Valid()
    ensures |parts| == |regions|
  {
    seq(|regions|, r requires 0 <= r < |regions| => EventsIn(regions[r], model, pts, streamIndex))
  }

  lemma {:induction false} RawEventsJoined(regions: seq<Region>, model: Model, pts: int, streamIndex: int)
    requires model.Valid()
    ensures RawEvents(regions, model, pts, streamIndex) == Joined(Parts(regions, model, pts, streamIndex))
  {
    if regions == [] {
    } else {
      var n := |regions| - 1;
      RawEventsJoined(regions[..n], model, pts, streamIndex);
      assert Parts(regions, model, pts, streamIndex)[..n] == Parts(regions[..n], model, pts, streamIndex);
    }
  }

  lemma EventsInShow(region: Region, model: Model, pts: int, streamIndex: int, k: int)
    requires model.Valid() && Large(region.roi) && 0 <= k < |region.detections|
    ensures ShownAt(EventsIn(region, model, pts, streamIndex), k, region.detections[k], region.roi, model)
  {
    LargeEnough(region.roi);
    RawEventShows(region.detections[k], region.roi, model, pts, streamIndex);
  }

  lemma EventsInCount(region: Region, model: Model, pts: int, streamIndex: int)
    requires model.Valid()
    ensures |EventsIn(region, model, pts, streamIndex)| == if Large(region.roi) then |region.detections| else 0
  {
    LargeEnough(region.roi);
  }

  lemma {:induction false} BeforeIsStart(regions: seq<Region>, model: Model, pts: int, streamIndex: int, n: nat)
    requires model.Valid() && n <= |regions|
    ensures Before(regions, n) == Start(Parts(regions, model, pts, streamIndex), n)
  {
    if n == 0 {
    } else {
      BeforeIsStart(regions, model, pts, streamIndex, n - 1);
      EventsInCount(regions[n - 1], model, pts, streamIndex);
    }
  }

  lemma PartShown(parts: seq<seq<ArcFlashEvent>>, r: nat, k: nat, c: Candidate, roi: Box, model: Model)
    requires r < |parts| && ShownAt(parts[r], k, c, roi, model)
    ensures ShownAt(Joined(parts), Start(parts, r) + k, c, roi, model)
  {
    JoinedAt(parts, r, k);
    var e := parts[r][k];
    assert Shows(e, c, roi, model);
  }

  /** So every detection of a large region becomes one event of its own, in order. */
  lemma RawEventsInOrder(regions: seq<Region>, model: Model, pts: int, streamIndex: int)
    requires model.Valid()
    ensures RegionByRegion(RawEvents(regions, model, pts, streamIndex), regions, model)
  {
    var parts := Parts(regions, model, pts, streamIndex);
    RawEventsJoined(regions, model, pts, streamIndex);
    JoinedCount(parts);
    BeforeIsStart(regions, model, pts, streamIndex, |regions|);
    forall r, k | Detected(regions, r, k)
      ensures ShownAt(Joined(parts), Before(regions, r) + k, regions[r].detections[k], regions[r].roi, model)
    {
      EventsInShow(regions[r], model, pts, streamIndex, k);
      PartShown(parts, r, k, regions[r].detections[k], regions[r].roi, model);
      BeforeIsStart(regions, model, pts, streamIndex, r);
    }
  }

  // ---------- The algorithm ----------

  /** The inner loop, over the detections of one region. */
  method EventsOfRegion(region: Region, model: Model, pts: int, streamIndex: int) returns (events: seq<ArcFlashEvent>)
    requires model.Valid()
    ensures events == EventsIn(region, model, pts, streamIndex)
  {
    events := [];
    if Truncate(region.roi.x2 - region.roi.x1) < 32 || Truncate(region.roi.y2 - region.roi.y1) < 32 {
      return;
    }
    for k := 0 to |region.detections|
      invariant |events| == k
      invariant forall l | 0 <= l < k :: events[l] == RawEvent(region.detections[l], region.roi, model, pts,
                                                               streamIndex)
    {
      events := events + [RawEvent(region.detections[k], region.roi, model, pts, streamIndex)];
    }
  }

  lemma OneMoreRegion(regions: seq<Region>, r: nat, model: Model, pts: int, streamIndex: int)
    requires model.Valid() && r < |regions|
    ensures RawEvents(regions[..r + 1], model, pts, streamIndex)
            == RawEvents(regions[..r], model, pts, streamIndex) + EventsIn(regions[r], model, pts, streamIndex)
  {
    assert regions[..r + 1][..r] == regions[..r];
  }

  /** Exactly the detections of the regions large enough become events, at their place in the image. */
  method DetectArcInRois(regions: seq<Region>, model: Model, pts: int, streamIndex: int)
    returns (raw: array<ArcFlashEvent>)
    requires model.Valid()
    ensures fresh(raw) && raw[..] == RawEvents(regions, model, pts, streamIndex)
    ensures AllFresh(raw[..], pts, streamIndex)
    ensures ReportsExactly(raw[..], regions, model) && RegionByRegion(raw[..], regions, model)
  {
    var allEvents: seq<ArcFlashEvent> := [];
    for r := 0 to |regions|
      invariant allEvents == RawEvents(regions[..r], model, pts, streamIndex)
    {
      OneMoreRegion(regions, r, model, pts, streamIndex);
      var events := EventsOfRegion(regions[r], model, pts, streamIndex);
      allEvents := allEvents + events;
    }
    assert regions[..|regions|] == regions;
    RawEventsFresh(regions, model, pts, streamIndex);
    RawEventsExact(regions, model, pts, streamIndex);
    RawEventsInOrder(regions, model, pts, streamIndex);
    raw := new ArcFlashEvent[|allEvents|](i requires 0 <= i < |allEvents| => allEvents[i]);
    assert raw[..] == allEvents;
  }

  // ---------- Where detections end up in the image ----------

  /** Image pixels per pixel of the network's input, along one side. */
  function Zoom(side: real, n: nat): real
    requires n > 0
  {
    Truncate(side) as real / n as real
  }

  lemma QuotientsSwap(x: real, n: real, w: real)
    requires n != 0.0
    ensures x / n * w == x * (w / n)
  {
    var q, k := x / n, w / n;
    assert q * n == x && k * n == w;
    assert q * w == q * (k * n) == (q * n) * k;
  }

  /** Mapping a coordinate stretches by the zoom and moves to the edge of the region. */
  lemma MappedIsAlong(x: real, n: nat, side: real, lo: real)
    requires n > 0
    ensures Mapped(x, n, side, lo) == Along(x, Zoom(side, n), lo)
  {
    QuotientsSwap(x, n as real, Truncate(side) as real);
  }

  lemma ToImageStretches(b: Box, roi: Box, model: Model)
    requires model.Valid()
    ensures ToImage(b, roi, model)
            == Stretch(b, Zoom(roi.x2 - roi.x1, model.width), Zoom(roi.y2 - roi.y1, model.height), roi.x1, roi.y1)
  {
    MappedIsAlong(b.x1, model.width, roi.x2 - roi.x1, roi.x1);
    MappedIsAlong(b.x2, model.width, roi.x2 - roi.x1, roi.x1);
    MappedIsAlong(b.y1, model.height, roi.y2 - roi.y1, roi.y1);
    MappedIsAlong(b.y2, model.height, roi.y2 - roi.y1, roi.y1);
  }

  lemma ZoomPositive(side: real, n: nat)
    requires n > 0 && Truncate(side) >= 32
    ensures Zoom(side, n) > 0.0
  {
  }

  /** Two detections of one region overlap in the image as they do in the network's input. */
  lemma MappingKeepsOverlap(a: Box, b: Box, roi: Box, model: Model)
    requires model.Valid() && !TooSmall(roi)
    ensures IoU(ToImage(a, roi, model), ToImage(b, roi, model)) == IoU(a, b)
    ensures Proper(ToImage(a, roi, model)) <==> Proper(a)
  {
    ToImageStretches(a, roi, model);
    ToImageStretches(b, roi, model);
    var kx, ky := Zoom(roi.x2 - roi.x1, model.width), Zoom(roi.y2 - roi.y1, model.height);
    ZoomPositive(roi.x2 - roi.x1, model.width);
    ZoomPositive(roi.y2 - roi.y1, model.height);
    StretchKeepsIoU(a, b, kx, ky, roi.x1, roi.y1);
    StretchKeepsProper(a, kx, ky, roi.x1, roi.y1);
  }

  lemma ShareOfSide(x: real, n: real, w: real)
    requires 0.0 <= x <= n && n > 0.0 && w >= 0.0
    ensures 0.0 <= x / n * w <= w
  {
    var q := x / n;
    assert q * n == x;
    assert 0.0 <= q <= 1.0;
  }

  lemma CoordinateInside(x: real, n: nat, lo: real, hi: real)
    requires n > 0 && 0.0 <= x <= n as real && Truncate(hi - lo) >= 0 && hi >= lo
    ensures lo <= Mapped(x, n, hi - lo, lo) <= hi
  {
    ShareOfSide(x, n as real, Truncate(hi - lo) as real);
  }

  /** A detection inside the network's input ends up inside its region. */
  lemma MappedInside(b: Box, roi: Box, model: Model)
    requires model.Valid() && !TooSmall(roi)
    requires 0.0 <= b.x1 <= model.width as real && 0.0 <= b.x2 <= model.width as real
    requires 0.0 <= b.y1 <= model.height as real && 0.0 <= b.y2 <= model.height as real
    ensures var m := ToImage(b, roi, model);
            && roi.x1 <= m.x1 <= roi.x2 && roi.x1 <= m.x2 <= roi.x2
            && roi.y1 <= m.y1 <= roi.y2 && roi.y1 <= m.y2 <= roi.y2
  {
    CoordinateInside(b.x1, model.width, roi.x1, roi.x2);
    CoordinateInside(b.x2, model.width, roi.x1, roi.x2);
    CoordinateInside(b.y1, model.height, roi.y1, roi.y2);
    CoordinateInside(b.y2, model.height, roi.y1, roi.y2);
  }
}
