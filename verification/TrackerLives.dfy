/**
 The life of a track in a run: it is created once, and from then on changes only by the detections
 it claims. Energies are non-negative, as the estimator returns them, and time does not run backwards.
 */
module TrackerLives {
  import opened Geometry
  import opened TrackerSpec
  import Kalman
  import TrackerConservation

  /** One detection that a track claims. */
  datatype Match = Match(pts: int, box: Box, energy: real)

  /** The track after claiming these detections one after the other. */
  function After(cfg: Config, t: Track, ms: seq<Match>): (u: Track)
    requires Kalman.Sound(t.filter)
    ensures Kalman.Sound(u.filter) && u.startPts == t.startPts && u.trackId == t.trackId
    ensures u.frameCount == t.frameCount + |ms|
  {
    if ms == [] then t
    else
      var m := ms[|ms| - 1];
      var before := After(cfg, t, ms[..|ms| - 1]);
      Kalman.StaysSound(before.filter, m.energy);
      Touch(cfg, before, m.pts, m.box, m.energy)
  }

  /** Energies are non-negative and time has reached `now`. */
  predicate Possible(ms: seq<Match>, now: int) {
    forall i | 0 <= i < |ms| :: ms[i].energy >= 0.0 && ms[i].pts >= now
  }

  lemma AfterOneMore(cfg: Config, t: Track, ms: seq<Match>, m: Match)
    requires Kalman.Sound(t.filter)
    ensures After(cfg, t, ms + [m]) == Touch(cfg, After(cfg, t, ms), m.pts, m.box, m.energy)
  {
    assert (ms + [m])[..|ms|] == ms;
  }

  lemma AfterOne(cfg: Config, t: Track, m: Match)
    requires Kalman.Sound(t.filter)
    ensures After(cfg, t, [m]) == Touch(cfg, t, m.pts, m.box, m.energy)
  {
    assert [m][..0] == [];
  }

  // ---------- Orderly runs ----------

  predicate NonNegative(op: Op) {
    op.Update? ==> forall i | 0 <= i < |op.energies| :: op.energies[i] >= 0.0
  }

  /** Calls arrive in time order and carry non-negative energies. */
  ghost predicate Orderly(ops: seq<Op>) {
    && ValidOps(ops)
    && (forall i | 0 <= i < |ops| :: NonNegative(ops[i]))
    && (forall i, j | 0 <= i < j < |ops| :: ops[i].pts <= ops[j].pts)
  }

  function LastPts(ops: seq<Op>): int
    requires ops != []
  {
    ops[|ops| - 1].pts
  }

  lemma OrderlyPrefix(ops: seq<Op>, n: nat)
    requires Orderly(ops) && n <= |ops|
    ensures Orderly(ops[..n])
  {
  }

  lemma SameTrack(cfg: Config, ops: seq<Op>, i: int, h: int)
    requires ValidOps(ops)
    requires 0 <= i < |Run(cfg, ops).active| && 0 <= h < |Run(cfg, ops).active|
    requires Run(cfg, ops).active[i].trackId == Run(cfg, ops).active[h].trackId
    ensures i == h && Run(cfg, ops).active[i].trackId < Run(cfg, ops).nextId
  {
    TrackerConservation.RunConserves(cfg, ops);
  }

  // ---------- Lives ----------

  /** The box can be claimed for: it has an area, and the threshold can be reached. */
  predicate Matchable(cfg: Config, box: Box) {
    Proper(box) && cfg.iouMatch <= 1.0
  }

  /** u is t after these matches, none of them before `now`. */
  ghost predicate DescendsBy(cfg: Config, t: Track, ms: seq<Match>, u: Track, now: int)
    requires Kalman.Sound(t.filter)
  {
    Possible(ms, now) && u == After(cfg, t, ms) && (ms != [] ==> Matchable(cfg, t.box))
  }

  /** u is t after some matches. */
  ghost predicate Descends(cfg: Config, t: Track, u: Track, now: int) {
    Kalman.Sound(t.filter) && exists ms :: DescendsBy(cfg, t, ms, u, now)
  }

  lemma ClaimedIsMatchable(cfg: Config, box: Box, det: Box)
    requires IoU(box, det) >= cfg.iouMatch && IoU(box, det) > 0.0
    ensures Matchable(cfg, box)
  {
    IoUAtMostOne(box, det);
    if !Proper(box) {
      ImproperOverlapsNothing(box, det);
    }
  }

  lemma DescendsFromItself(cfg: Config, t: Track, now: int)
    requires Kalman.Sound(t.filter)
    ensures Descends(cfg, t, t, now)
  {
    assert DescendsBy(cfg, t, [], t, now);
  }

  lemma DescendsByMatch(cfg: Config, t: Track, pts: int, box: Box, energy: real, now: int)
    requires Kalman.Sound(t.filter) && energy >= 0.0 && pts >= now && Matchable(cfg, t.box)
    ensures Descends(cfg, t, Touch(cfg, t, pts, box, energy), now)
  {
    var m := Match(pts, box, energy);
    AfterOne(cfg, t, m);
    assert DescendsBy(cfg, t, [m], Touch(cfg, t, pts, box, energy), now);
  }

  lemma DescendsOn(cfg: Config, t: Track, u: Track, v: Track, now: int)
    requires Descends(cfg, t, u, now) && Descends(cfg, u, v, now)
    ensures Descends(cfg, t, v, now)
  {
    var ms :| DescendsBy(cfg, t, ms, u, now);
    var ns :| DescendsBy(cfg, u, ns, v, now);
    AfterConcat(cfg, t, ms, ns);
    assert DescendsBy(cfg, t, ms + ns, v, now);
  }

  lemma {:induction false} AfterConcat(cfg: Config, t: Track, ms: seq<Match>, ns: seq<Match>)
    requires Kalman.Sound(t.filter)
    ensures After(cfg, t, ms + ns) == After(cfg, After(cfg, t, ms), ns)
  {
    if ns == [] {
      assert ms + ns == ms;
    } else {
      var k := |ns| - 1;
      AfterConcat(cfg, t, ms, ns[..k]);
      assert ms + ns == (ms + ns[..k]) + [ns[k]];
      AfterOneMore(cfg, t, ms + ns[..k], ns[k]);
    }
  }

  lemma {:induction false} KeptFrom(cfg: Config, tracks: seq<Track>, pts: int, j: int) returns (i: int)
    requires 0 <= j < |Kept(cfg, tracks, pts)|
    ensures 0 <= i < |tracks| && tracks[i] == Kept(cfg, tracks, pts)[j]
  {
    var n := |tracks| - 1;
    if j < |Kept(cfg, tracks[..n], pts)| {
      i := KeptFrom(cfg, tracks[..n], pts, j);
    } else {
      i := n;
    }
  }

  /** One call back, an active track was itself, one match short of itself, or not there. */
  lemma OneCallBack(cfg: Config, s: Tracker, op: Op, now: int, j: int) returns (i: int)
    requires AllSound(s.active) && op.Valid() && NonNegative(op) && now <= op.pts
    requires 0 <= j < |Step(cfg, s, op).0.active|
    ensures var u := Step(cfg, s, op).0.active[j];
            if 0 <= i < |s.active| then Descends(cfg, s.active[i], u, now) else u.trackId >= s.nextId
  {
    match op
    case Update(pts, dets, energies) =>
      i := j;
      var d := ActiveOrigin(cfg, s, pts, dets, energies, j);
      if j < |s.active| && d >= 0 {
        ClaimedIsMatchable(cfg, s.active[j].box, dets[d]);
        DescendsByMatch(cfg, s.active[j], pts, dets[d], energies[d], now);
      } else if j < |s.active| {
        DescendsFromItself(cfg, s.active[j], now);
      }
    case Expire(pts) =>
      i := KeptFrom(cfg, s.active, pts, j);
      DescendsFromItself(cfg, s.active[i], now);
  }

  /** Every active track of r that s already knew is an active track of s after some matches. */
  ghost predicate AllDescend(cfg: Config, s: Tracker, r: Tracker, now: int) {
    && s.nextId <= r.nextId
    && forall j | 0 <= j < |r.active| && r.active[j].trackId < s.nextId :: DescendsFrom(cfg, s, r.active[j], now)
  }

  ghost predicate DescendsFrom(cfg: Config, s: Tracker, u: Track, now: int) {
    exists i :: 0 <= i < |s.active| && Descends(cfg, s.active[i], u, now)
  }

  lemma StepDescends(cfg: Config, s: Tracker, op: Op, now: int)
    requires AllSound(s.active) && op.Valid() && NonNegative(op) && now <= op.pts
    ensures AllDescend(cfg, s, Step(cfg, s, op).0, now)
  {
    var r := Step(cfg, s, op).0;
    forall j | 0 <= j < |r.active| && r.active[j].trackId < s.nextId
      ensures DescendsFrom(cfg, s, r.active[j], now)
    {
      var i := OneCallBack(cfg, s, op, now, j);
    }
  }

  lemma AllDescendFromItself(cfg: Config, s: Tracker, now: int)
    requires AllSound(s.active)
    ensures AllDescend(cfg, s, s, now)
  {
    forall j | 0 <= j < |s.active|
      ensures DescendsFrom(cfg, s, s.active[j], now)
    {
      DescendsFromItself(cfg, s.active[j], now);
    }
  }

  lemma AllDescendOn(cfg: Config, s: Tracker, r: Tracker, q: Tracker, now: int)
    requires AllDescend(cfg, s, r, now) && AllDescend(cfg, r, q, now)
    ensures AllDescend(cfg, s, q, now)
  {
    forall j | 0 <= j < |q.active| && q.active[j].trackId < s.nextId
      ensures DescendsFrom(cfg, s, q.active[j], now)
    {
      var h :| 0 <= h < |r.active| && Descends(cfg, r.active[h], q.active[j], now);
      var i :| 0 <= i < |s.active| && Descends(cfg, s.active[i], r.active[h], now);
      DescendsOn(cfg, s.active[i], r.active[h], q.active[j], now);
    }
  }

  /** From the n-th call on, time has reached `now`. */
  predicate NotBefore(ops: seq<Op>, n: nat, now: int) {
    forall k | n <= k < |ops| :: ops[k].pts >= now
  }

  lemma Prefixes(ops: seq<Op>, n: nat)
    requires n <= |ops|
    ensures n == |ops| ==> ops[..n] == ops
    ensures n < |ops| ==> ops[..|ops| - 1][..n] == ops[..n]
  {
  }

  /** Tracks seen now that existed n calls into the run are what they were then after some matches. */
  lemma {:induction false} RunDescends(cfg: Config, ops: seq<Op>, n: nat, now: int)
    requires Orderly(ops) && n <= |ops| && NotBefore(ops, n, now)
    ensures AllDescend(cfg, Run(cfg, ops[..n]), Run(cfg, ops), now)
  {
    Prefixes(ops, n);
    if n == |ops| {
      AllDescendFromItself(cfg, Run(cfg, ops), now);
    } else {
      var k := |ops| - 1;
      OrderlyPrefix(ops, k);
      RunDescends(cfg, ops[..k], n, now);
      StepDescends(cfg, Run(cfg, ops[..k]), ops[k], now);
      AllDescendOn(cfg, Run(cfg, ops[..n]), Run(cfg, ops[..k]), Run(cfg, ops), now);
    }
  }

  /** The same track at two moments of a run. */
  lemma SameTrackDescends(cfg: Config, ops: seq<Op>, n: nat, now: int, i: int, j: int)
    requires Orderly(ops) && n <= |ops| && NotBefore(ops, n, now)
    requires 0 <= i < |Run(cfg, ops[..n]).active| && 0 <= j < |Run(cfg, ops).active|
    requires Run(cfg, ops[..n]).active[i].trackId == Run(cfg, ops).active[j].trackId
    ensures Descends(cfg, Run(cfg, ops[..n]).active[i], Run(cfg, ops).active[j], now)
  {
    RunDescends(cfg, ops, n, now);
    SameTrack(cfg, ops[..n], i, i);
    var h :| 0 <= h < |Run(cfg, ops[..n]).active|
             && Descends(cfg, Run(cfg, ops[..n]).active[h], Run(cfg, ops).active[j], now);
    SameTrack(cfg, ops[..n], i, h);
  }
}
