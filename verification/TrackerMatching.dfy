/**
 The greedy matching is one-to-one, keeps to the threshold, and is stable when older tracks rank
 above younger ones.
 */
module TrackerMatching {
  import opened Geometry
  import opened TrackerSpec

  /** A claim reaches the threshold with a real overlap, and no older track has made it. */
  lemma ClaimAt(boxes: seq<Box>, dets: seq<Box>, threshold: real, t: nat)
    requires t < |boxes|
    ensures var m := Greedy(boxes, dets, threshold);
            m[t] >= 0 ==>
              && m[t] < |dets| && IoU(boxes[t], dets[m[t]]) >= threshold && IoU(boxes[t], dets[m[t]]) > 0.0
              && forall s | 0 <= s < t :: m[s] != m[t]
  {
    var m := Greedy(boxes, dets, threshold);
    GreedyAt(boxes, dets, threshold, t);
    forall s | 0 <= s < t
      ensures m[s] in Taken(m[..t])
    {
      assert m[..t][s] == m[s];
    }
  }

  /** No detection is claimed twice, and every claim reaches the threshold with a real overlap. */
  lemma OneToOne(boxes: seq<Box>, dets: seq<Box>, threshold: real)
    ensures var m := Greedy(boxes, dets, threshold);
            && (forall s, t | 0 <= s < t < |m| :: m[t] >= 0 ==> m[s] != m[t])
            && (forall t | 0 <= t < |m| :: m[t] >= 0 ==>
                  m[t] < |dets| && IoU(boxes[t], dets[m[t]]) >= threshold && IoU(boxes[t], dets[m[t]]) > 0.0)
  {
    forall t | 0 <= t < |boxes| {
      ClaimAt(boxes, dets, threshold, t);
    }
  }

  /**
   Every pair that reaches a positive threshold and was not matched has a reason: its track holds a
   detection overlapping at least as much, or its detection belongs to an older track.
   */
  lemma Stable(boxes: seq<Box>, dets: seq<Box>, threshold: real, t: int, d: int)
    requires threshold > 0.0 && 0 <= t < |boxes| && 0 <= d < |dets|
    requires IoU(boxes[t], dets[d]) >= threshold
    ensures var m := Greedy(boxes, dets, threshold);
            || (0 <= m[t] < |dets| && IoU(boxes[t], dets[m[t]]) >= IoU(boxes[t], dets[d]))
            || (exists s | 0 <= s < t :: m[s] == d)
  {
    var m := Greedy(boxes, dets, threshold);
    GreedyAt(boxes, dets, threshold, t);
    var taken := Taken(m[..t]);
    if d !in taken {
      var e := BestOf(boxes[t], dets, taken, d);
      assert Claims(boxes[t], dets, taken, threshold, e);
    } else {
      var s :| 0 <= s < t && m[..t][s] == d;
      assert m[s] == d;
    }
  }

  /** If some unclaimed detection overlaps, there is a first best one. */
  lemma BestOf(box: Box, dets: seq<Box>, taken: set<int>, d: int) returns (e: int)
    requires 0 <= d < |dets| && d !in taken && IoU(box, dets[d]) > 0.0
    ensures IsBest(box, dets, taken, e) && IoU(box, dets[e]) >= IoU(box, dets[d])
  {
    var n := 0;
    e := d;
    while n < |dets|
      invariant 0 <= n <= |dets| && 0 <= e < |dets| && e !in taken && IoU(box, dets[e]) >= IoU(box, dets[d])
      invariant forall k | 0 <= k < n && k !in taken ::
                  IoU(box, dets[k]) < IoU(box, dets[e]) || (IoU(box, dets[k]) == IoU(box, dets[e]) && e <= k)
    {
      if n !in taken && (IoU(box, dets[n]) > IoU(box, dets[e]) || (IoU(box, dets[n]) == IoU(box, dets[e]) && n < e)) {
        e := n;
      }
      n := n + 1;
    }
  }

  /** All overlaps are taken with the boxes the tracks had before the call, although boxes move during it. */
  lemma MatchingUsesOldBoxes(cfg: Config, s: Tracker, pts: int, dets: seq<Box>, energies: seq<real>, t: int)
    requires AllSound(s.active) && |dets| <= |energies| && 0 <= t < |s.active|
    ensures var after := AfterUpdate(cfg, s, pts, dets, energies).0.active;
            var m := Greedy(Boxes(s.active), dets, cfg.iouMatch);
            && t < |after| && after[t].trackId == s.active[t].trackId
            && (m[t] < 0 ==> after[t] == s.active[t])
            && (m[t] >= 0 ==>
                  && m[t] < |dets| && after[t].box == dets[m[t]]
                  && IoU(s.active[t].box, after[t].box) >= cfg.iouMatch)
  {
    OneToOne(Boxes(s.active), dets, cfg.iouMatch);
  }
}
