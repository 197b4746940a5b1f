/**
 When a track can lose a level. The worst that can happen to a level is quiet: matches of energy
 zero while time stands still. A level is lost in some continuation exactly when quiet loses it.
 */
module TrackerDecline {
  import opened Geometry
  import opened RealArithmetic
  import opened TrackerSpec
  import opened TrackerLives
  import Kalman
  import TrackerEnergyOrder

  // ---------- Continuations of one track ----------

  function Quiet(box: Box, now: int, n: nat): (ms: seq<Match>)
    ensures |ms| == n && Possible(ms, now)
  {
    seq(n, _ => Match(now, box, 0.0))
  }

  /** The track after n quiet matches. */
  function Rested(cfg: Config, t: Track, now: int, n: nat): (u: Track)
    requires Kalman.Sound(t.filter)
    ensures Kalman.Sound(u.filter) && u.startPts == t.startPts && u.trackId == t.trackId
    ensures u.frameCount == t.frameCount + n
  {
    After(cfg, t, Quiet(t.box, now, n))
  }

  lemma RestedOneMore(cfg: Config, t: Track, now: int, n: nat)
    requires Kalman.Sound(t.filter)
    ensures Rested(cfg, t, now, n + 1) == Touch(cfg, Rested(cfg, t, now, n), now, t.box, 0.0)
  {
    assert Quiet(t.box, now, n + 1) == Quiet(t.box, now, n) + [Match(now, t.box, 0.0)];
    AfterOneMore(cfg, t, Quiet(t.box, now, n), Match(now, t.box, 0.0));
  }

  // ---------- Quiet is the worst ----------

  /** v has no more energy than u, and filters that differ in nothing else. */
  predicate Quieter(v: Track, u: Track) {
    && v.filter == u.filter.(x := v.filter.x) && v.filter.x <= u.filter.x
    && v.cumulative <= u.cumulative && v.startPts == u.startPts
  }

  lemma TouchQuieter(cfg: Config, v: Track, u: Track, now: int, box: Box, m: Match)
    requires Kalman.Sound(u.filter) && Kalman.Sound(v.filter) && Quieter(v, u)
    requires m.energy >= 0.0 && m.pts >= now
    ensures var v', u' := Touch(cfg, v, now, box, 0.0), Touch(cfg, u, m.pts, m.box, m.energy);
            Quieter(v', u') && v'.smoothed <= u'.smoothed && v'.severity <= u'.severity
  {
    var v', u' := Touch(cfg, v, now, box, 0.0), Touch(cfg, u, m.pts, m.box, m.energy);
    Kalman.UpdateMonotone(v.filter, u.filter, 0.0, m.energy);
    TrackerEnergyOrder.ThirtiethMonotone(v'.smoothed, u'.smoothed);
    TrackerEnergyOrder.ClassifyMonotone(cfg.thresholds, v'.cumulative, u'.cumulative, v'.smoothed, u'.smoothed,
                                        now - v.startPts, m.pts - u.startPts);
  }

  /** However a track goes on, as many quiet matches leave it with no more energy and no higher a level. */
  lemma {:induction false} QuietIsLeast(cfg: Config, t: Track, ms: seq<Match>, now: int)
    requires Kalman.Sound(t.filter) && Possible(ms, now)
    ensures var v, u := Rested(cfg, t, now, |ms|), After(cfg, t, ms);
            Quieter(v, u) && (ms != [] ==> v.smoothed <= u.smoothed && v.severity <= u.severity)
  {
    if ms == [] {
    } else {
      var n := |ms| - 1;
      QuietIsLeast(cfg, t, ms[..n], now);
      RestedOneMore(cfg, t, now, n);
      TouchQuieter(cfg, Rested(cfg, t, now, n), After(cfg, t, ms[..n]), now, t.box, ms[n]);
    }
  }

  /** The track goes on and then reports less than `level`. */
  ghost predicate CanLose(cfg: Config, t: Track, now: int, level: Level)
    requires Kalman.Sound(t.filter)
  {
    exists ms :: ms != [] && Possible(ms, now) && After(cfg, t, ms).severity < level
  }

  /** A level can be lost if and only if quiet loses it. */
  lemma LostIffQuietLoses(cfg: Config, t: Track, now: int, level: Level)
    requires Kalman.Sound(t.filter)
    ensures CanLose(cfg, t, now, level) <==> exists n: nat :: n > 0 && Rested(cfg, t, now, n).severity < level
  {
    if CanLose(cfg, t, now, level) {
      var ms :| ms != [] && Possible(ms, now) && After(cfg, t, ms).severity < level;
      QuietIsLeast(cfg, t, ms, now);
      assert Rested(cfg, t, now, |ms|).severity < level;
    }
    if n: nat :| n > 0 && Rested(cfg, t, now, n).severity < level {
      var ms := Quiet(t.box, now, n);
      assert After(cfg, t, ms).severity < level;
    }
  }

  // ---------- What keeps a level ----------

  function Least(a: real, b: real): real { if a < b then a else b }

  /** The least cumulative energy that gives `level` or more; likewise for the next two. */
  function CumulativeLimit(th: Thresholds, level: Level): real
    requires level >= 2
    decreases 5 - level
  {
    if level == 5 then th.level5Cumulative
    else if level == 4 then Least(th.level4Cumulative, CumulativeLimit(th, 5))
    else if level == 3 then Least(th.level3Cumulative, CumulativeLimit(th, 4))
    else Least(th.level2Cumulative, CumulativeLimit(th, 3))
  }

  function SmoothedLimit(th: Thresholds, level: Level): real {
    if level >= 4 then th.level5Instant else Least(th.level3Instant, th.level5Instant)
  }

  function DurationLimit(th: Thresholds, level: Level): int {
    if level == 5 || th.level5DurationNs < th.level4DurationNs then th.level5DurationNs else th.level4DurationNs
  }

  /** The classifier stays below a level exactly when all three quantities are below their limits. */
  lemma BelowLimits(th: Thresholds, cumulative: real, smoothed: real, duration: int, level: Level)
    requires level >= 2
    ensures Classify(th, cumulative, smoothed, duration) < level
            <==> && cumulative < CumulativeLimit(th, level)
                 && smoothed < SmoothedLimit(th, level)
                 && duration < DurationLimit(th, level)
  {
    assert CumulativeLimit(th, 4) == Least(th.level4Cumulative, th.level5Cumulative);
    assert CumulativeLimit(th, 3) == Least(th.level3Cumulative, CumulativeLimit(th, 4));
  }

  // ---------- How energy decays in quiet ----------

  /** The energy all further quiet matches can still add: a geometric series of ratio r/(q+r). */
  function Reserve(f: Kalman.Filter): real
    requires Kalman.Sound(f)
  {
    SeriesOf(f.x, f.q, f.r)
  }

  function SeriesOf(x: real, q: real, r: real): real
    requires q > 0.0
  {
    Thirtieth(x * (r / q))
  }

  /** A filter that has measured and never went negative. */
  predicate Warm(f: Kalman.Filter) {
    Kalman.Sound(f) && f.initialized && f.x >= 0.0
  }

  /** At most the share r/(q+r) of x is left. */
  predicate Fades(x': real, x: real, q: real, r: real) {
    0.0 <= x' <= x && x' * (q + r) <= x * r
  }

  lemma DecayStep(f: Kalman.Filter)
    requires Warm(f)
    ensures var g := Kalman.Update(f, 0.0);
            Warm(g) && g.q == f.q && g.r == f.r && Fades(g.x, f.x, f.q, f.r)
  {
    var g := Kalman.Update(f, 0.0);
    Kalman.StaysSound(f, 0.0);
    Kalman.StepWithin(f, 0.0, 0.0, f.x);
    Kalman.ErrorShrinks(f, 0.0);
    DecayProduct(g.x, f.x, Kalman.Rho(f.q, f.r), f.q, f.r);
  }

  lemma DecayProduct(x': real, x: real, rho: real, q: real, r: real)
    requires q > 0.0 && r > 0.0 && rho == r / (q + r) && 0.0 <= x' <= x && x' <= rho * x
    ensures Fades(x', x, q, r)
  {
    DivCancels(r, q + r);
    MulLe(q + r, x', rho * x);
    assert (q + r) * (rho * x) == (rho * (q + r)) * x;
  }

  lemma SeriesStep(x': real, x: real, q: real, r: real)
    requires q > 0.0 && r > 0.0 && Fades(x', x, q, r)
    ensures Thirtieth(x') + SeriesOf(x', q, r) <= SeriesOf(x, q, r)
  {
    var k := r / q;
    DivCancels(r, q);
    ScaledShare(x', k, q, r);
    ScaledShare(x, k, q, r);
    var y', y := x' * k, x * k;
    SumWithin(x', y', y, x, q, r);
    ThirtiethOfSum(x', y');
    TrackerEnergyOrder.ThirtiethMonotone(x' + y', y);
  }

  lemma ScaledShare(x: real, k: real, q: real, r: real)
    requires k * q == r
    ensures (x * k) * q == x * r
  {
    assert (x * k) * q == x * (k * q);
  }

  lemma SumWithin(x': real, y': real, y: real, x: real, q: real, r: real)
    requires q > 0.0 && y' * q == x' * r && y * q == x * r && Fades(x', x, q, r)
    ensures x' + y' <= y
  {
    Distribute(x', y', q);
    assert x' * (q + r) == x' * q + x' * r;
    QuotientLe(x' + y', y, q);
  }

  lemma ThirtiethOfSum(a: real, b: real)
    ensures Thirtieth(a + b) == Thirtieth(a) + Thirtieth(b)
  {
  }

  lemma QuotientLe(a: real, b: real, d: real)
    requires d > 0.0 && a * d <= b * d
    ensures a <= b
  {
  }

  /** One quiet match: energy moves from the reserve to the cumulative energy, and some is lost. */
  lemma QuietTouch(cfg: Config, v: Track, now: int, box: Box)
    requires Warm(v.filter)
    ensures var w := Touch(cfg, v, now, box, 0.0);
            && Warm(w.filter) && w.filter.q == v.filter.q && w.filter.r == v.filter.r
            && w.smoothed == w.filter.x && w.lastPts == now && v.cumulative <= w.cumulative
            && Fades(w.filter.x, v.filter.x, v.filter.q, v.filter.r)
            && w.cumulative + Reserve(w.filter) <= v.cumulative + Reserve(v.filter)
  {
    DecayStep(v.filter);
    var x' := Kalman.Update(v.filter, 0.0).x;
    SeriesStep(x', v.filter.x, v.filter.q, v.filter.r);
    TrackerEnergyOrder.ThirtiethMonotone(0.0, x');
  }

  /** The state of a track in quiet, as far as levels are concerned. */
  lemma {:induction false} RestedBounds(cfg: Config, t: Track, now: int, n: nat)
    requires Warm(t.filter)
    ensures var v := Rested(cfg, t, now, n);
            && Warm(v.filter) && v.filter.q == t.filter.q && v.filter.r == t.filter.r
            && (n > 0 ==> v.smoothed == v.filter.x && v.lastPts == now)
            && v.cumulative + Reserve(v.filter) <= t.cumulative + Reserve(t.filter)
  {
    if n == 0 {
      assert Rested(cfg, t, now, 0) == t;
    } else {
      RestedBounds(cfg, t, now, n - 1);
      RestedOneMore(cfg, t, now, n - 1);
      QuietTouch(cfg, Rested(cfg, t, now, n - 1), now, t.box);
    }
  }

  lemma RestedStep(cfg: Config, t: Track, now: int, n: nat)
    requires Warm(t.filter)
    ensures var v, w := Rested(cfg, t, now, n), Rested(cfg, t, now, n + 1);
            v.cumulative <= w.cumulative && Fades(w.filter.x, v.filter.x, t.filter.q, t.filter.r)
  {
    RestedBounds(cfg, t, now, n);
    RestedOneMore(cfg, t, now, n);
    QuietTouch(cfg, Rested(cfg, t, now, n), now, t.box);
  }

  lemma {:induction false} RestedMonotone(cfg: Config, t: Track, now: int, m: nat, n: nat)
    requires Warm(t.filter) && m <= n
    ensures var v, w := Rested(cfg, t, now, m), Rested(cfg, t, now, n);
            w.filter.x <= v.filter.x && v.cumulative <= w.cumulative
  {
    if m == n {
    } else {
      RestedMonotone(cfg, t, now, m, n - 1);
      RestedStep(cfg, t, now, n - 1);
    }
  }

  /** x is at most the share r/(r + n*q) of what it was at first. */
  predicate Decayed(x: real, q: real, r: real, n: real, first: real) {
    x * (r + n * q) <= first * r
  }

  lemma NotDecayed(x: real, q: real, r: real)
    ensures Decayed(x, q, r, 0.0, x)
  {
  }

  /** Smoothed energy falls at least like 1/(r + n*q), hence below any positive bound. */
  lemma {:induction false} RestedSmoothed(cfg: Config, t: Track, now: int, n: nat)
    requires Warm(t.filter)
    ensures Decayed(Rested(cfg, t, now, n).filter.x, t.filter.q, t.filter.r, n as real, t.filter.x)
  {
    if n == 0 {
      assert Rested(cfg, t, now, 0) == t;
      NotDecayed(t.filter.x, t.filter.q, t.filter.r);
    } else {
      RestedSmoothed(cfg, t, now, n - 1);
      RestedStep(cfg, t, now, n - 1);
      HarmonicStep(Rested(cfg, t, now, n).filter.x, Rested(cfg, t, now, n - 1).filter.x, t.filter.q, t.filter.r,
                   (n - 1) as real, t.filter.x);
      assert (n - 1) as real + 1.0 == n as real;
    }
  }

  lemma HarmonicStep(x': real, x: real, q: real, r: real, n: real, first: real)
    requires q > 0.0 && r > 0.0 && n >= 0.0 && Fades(x', x, q, r) && Decayed(x, q, r, n, first)
    ensures Decayed(x', q, r, n + 1.0, first)
  {
    var a, b := r + n * q, r + (n + 1.0) * q;
    assert a * (q + r) >= r * b by {
      assert n * q >= 0.0 && (n * q) * q >= 0.0;
      assert a * (q + r) - r * b == (n * q) * q;
    }
    MulLe(a, x' * (q + r), x * r);
    assert a * (x' * (q + r)) == x' * (a * (q + r));
    MulLe(x', r * b, a * (q + r));
    assert x' * (r * b) == (x' * b) * r && a * (x * r) == (x * a) * r;
    QuotientLe(x' * b, x * a, r);
  }

  // ---------- When a level is lost ----------

  predicate Loses(cfg: Config, t: Track, now: int, level: Level, n: nat)
    requires Kalman.Sound(t.filter) && level >= 2
  {
    && Rested(cfg, t, now, n).cumulative < CumulativeLimit(cfg.thresholds, level)
    && Rested(cfg, t, now, n).filter.x < SmoothedLimit(cfg.thresholds, level)
    && now - t.startPts < DurationLimit(cfg.thresholds, level)
  }

  lemma LosesIsBelow(cfg: Config, t: Track, now: int, level: Level, n: nat)
    requires Warm(t.filter) && level >= 2 && n > 0
    ensures Rested(cfg, t, now, n).severity < level <==> Loses(cfg, t, now, level, n)
  {
    RestedBounds(cfg, t, now, n);
    RestedOneMore(cfg, t, now, n - 1);
    var v := Rested(cfg, t, now, n);
    BelowLimits(cfg.thresholds, v.cumulative, v.smoothed, now - t.startPts, level);
  }

  /** After n quiet matches, and not before, the smoothed energy alone no longer gives the level. */
  predicate Settles(cfg: Config, t: Track, now: int, level: Level, n: nat)
    requires Kalman.Sound(t.filter)
  {
    && n > 0 && Rested(cfg, t, now, n).filter.x < SmoothedLimit(cfg.thresholds, level)
    && (n == 1 || Rested(cfg, t, now, n - 1).filter.x >= SmoothedLimit(cfg.thresholds, level))
  }

  /** For a positive limit there is such a moment. */
  lemma SomeTimeSettles(cfg: Config, t: Track, now: int, level: Level) returns (n: nat)
    requires Warm(t.filter) && SmoothedLimit(cfg.thresholds, level) > 0.0
    ensures Settles(cfg, t, now, level, n)
  {
    n := LongEnough(t.filter.x * t.filter.r, SmoothedLimit(cfg.thresholds, level), t.filter.q);
    RestedSmoothed(cfg, t, now, n);
    SmallAfter(Rested(cfg, t, now, n).filter.x, t.filter.x, SmoothedLimit(cfg.thresholds, level),
               t.filter.q, t.filter.r, n as real);
    n := FirstSettled(cfg, t, now, level, n);
  }

  lemma LongEnough(a: real, s: real, q: real) returns (n: nat)
    requires a >= 0.0 && s > 0.0 && q > 0.0
    ensures n > 0 && n as real * q * s > a
  {
    var d := q * s;
    assert d > 0.0;
    DivCancels(a, d);
    var k := a / d;
    assert k >= 0.0;
    n := k.Floor + 1;
    MulLt(d, k, n as real);
    assert n as real * q * s == d * n as real;
  }

  lemma SmallAfter(x: real, first: real, s: real, q: real, r: real, n: real)
    requires q > 0.0 && r > 0.0 && s > 0.0 && n > 0.0 && n * q * s > first * r && Decayed(x, q, r, n, first)
    ensures x < s
  {
    var d := r + n * q;
    assert n * q > 0.0 && r * s > 0.0;
    assert s * d == r * s + n * q * s;
    LtByProduct(x, s, d);
  }

  lemma {:induction false} FirstSettled(cfg: Config, t: Track, now: int, level: Level, n: nat) returns (m: nat)
    requires Kalman.Sound(t.filter) && n > 0
    requires Rested(cfg, t, now, n).filter.x < SmoothedLimit(cfg.thresholds, level)
    ensures Settles(cfg, t, now, level, m)
  {
    if n == 1 || Rested(cfg, t, now, n - 1).filter.x >= SmoothedLimit(cfg.thresholds, level) {
      m := n;
    } else {
      m := FirstSettled(cfg, t, now, level, n - 1);
    }
  }

  /**
   The exact condition: a level can be lost if and only if it is lost at the very moment at which the
   smoothed energy stops giving it, because cumulative energy only grows from then on.
   */
  lemma LostIffLostWhenSettled(cfg: Config, t: Track, now: int, level: Level, n: nat)
    requires Warm(t.filter) && level >= 2 && Settles(cfg, t, now, level, n)
    ensures CanLose(cfg, t, now, level)
            <==> && Rested(cfg, t, now, n).cumulative < CumulativeLimit(cfg.thresholds, level)
                 && now - t.startPts < DurationLimit(cfg.thresholds, level)
  {
    LostIffQuietLoses(cfg, t, now, level);
    LosesIsBelow(cfg, t, now, level, n);
    if m: nat :| m > 0 && Rested(cfg, t, now, m).severity < level {
      LosesIsBelow(cfg, t, now, level, m);
      NotBeforeSettled(cfg, t, now, level, n, m);
      RestedMonotone(cfg, t, now, n, m);
    }
  }

  lemma NotBeforeSettled(cfg: Config, t: Track, now: int, level: Level, n: nat, m: nat)
    requires Warm(t.filter) && level >= 2 && Settles(cfg, t, now, level, n)
    requires m > 0 && Rested(cfg, t, now, m).filter.x < SmoothedLimit(cfg.thresholds, level)
    ensures n <= m
  {
    if m < n {
      RestedMonotone(cfg, t, now, m, n - 1);
    }
  }

  /** Without a positive limit on smoothed energy no level is ever lost. */
  lemma NeverLostAtZero(cfg: Config, t: Track, now: int, level: Level)
    requires Warm(t.filter) && level >= 2 && SmoothedLimit(cfg.thresholds, level) <= 0.0
    ensures !CanLose(cfg, t, now, level)
  {
    LostIffQuietLoses(cfg, t, now, level);
    if n: nat :| n > 0 && Rested(cfg, t, now, n).severity < level {
      LosesIsBelow(cfg, t, now, level, n);
      RestedBounds(cfg, t, now, n);
    }
  }

  /**
   What can be read off the track before the call. If even all the energy quiet can add stays below
   the limits, the level can be lost; if it is lost at all, the energy of one quiet match did.
   */
  lemma LostReadably(cfg: Config, t: Track, now: int, level: Level)
    requires Warm(t.filter) && level >= 2
    ensures var th := cfg.thresholds;
            var open := SmoothedLimit(th, level) > 0.0 && now - t.startPts < DurationLimit(th, level);
            && (open && t.cumulative + Reserve(t.filter) < CumulativeLimit(th, level) ==> CanLose(cfg, t, now, level))
            && (CanLose(cfg, t, now, level) ==>
                  open && t.cumulative + Thirtieth(Kalman.Update(t.filter, 0.0).x) < CumulativeLimit(th, level))
  {
    if SmoothedLimit(cfg.thresholds, level) > 0.0 {
      var n := SomeTimeSettles(cfg, t, now, level);
      LostIffLostWhenSettled(cfg, t, now, level, n);
      RestedBounds(cfg, t, now, n);
      ReserveNonNegative(Rested(cfg, t, now, n).filter);
      RestedMonotone(cfg, t, now, 1, n);
      RestedOneMore(cfg, t, now, 0);
    } else {
      NeverLostAtZero(cfg, t, now, level);
    }
  }

  lemma ReserveNonNegative(f: Kalman.Filter)
    requires Warm(f)
    ensures Reserve(f) >= 0.0
  {
    var k := f.r / f.q;
    DivCancels(f.r, f.q);
    assert k > 0.0;
    assert f.x * k >= 0.0;
  }
}
