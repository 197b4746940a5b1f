/**
 The one-dimensional Kalman filter that smooths a track's energy.
 */
module Kalman {
  import opened RealArithmetic

  datatype Filter = Filter(x: real, p: real, q: real, r: real, initialized: bool)

  function Start(q: real, r: real): Filter {
    Filter(0.0, 1.0, q, r, false)
  }

  /** Noise and variance as the tracker's filters have them. */
  predicate Sound(f: Filter) {
    f.q > 0.0 && f.r > 0.0 && f.p > 0.0
  }

  /** An update does not divide by zero. */
  predicate Defined(f: Filter) {
    f.initialized ==> f.p + f.q + f.r != 0.0
  }

  function Gain(f: Filter): real
    requires f.p + f.q + f.r != 0.0
  {
    (f.p + f.q) / (f.p + f.q + f.r)
  }

  /** The estimate corrected towards the measurement. */
  function Blend(x: real, m: real, k: real): real {
    x + k * (m - x)
  }

  /** The variance left over by a correction. */
  function Remainder(k: real, p: real): real {
    (1.0 - k) * p
  }

  function Update(f: Filter, m: real): Filter
    requires Defined(f)
  {
    if !f.initialized then f.(x := m, p := 1.0, initialized := true)
    else f.(x := Blend(f.x, m, Gain(f)), p := Remainder(Gain(f), f.p + f.q))
  }

  /** g is f after it has seen m: the first measurement becomes the estimate, any other corrects it. */
  predicate Corrects(f: Filter, g: Filter, m: real) {
    && g.q == f.q && g.r == f.r && g.initialized
    && (!f.initialized ==> g.x == m && g.p == 1.0)
    && (f.initialized ==>
          && (g.x - f.x) * (f.p + f.q + f.r) == (f.p + f.q) * (m - f.x)
          && g.p * (f.p + f.q + f.r) == (f.p + f.q) * f.r)
  }

  /** How fast a filter forgets: the share of the old error that one step may keep. */
  function Rho(q: real, r: real): real
    requires q > 0.0 && r > 0.0
  {
    r / (q + r)
  }

  class KalmanFilter1D {
    var x: real
    var p: real
    const q: real
    const r: real
    var initialized: bool

    ghost function State(): Filter
      reads this
    {
      Filter(x, p, q, r, initialized)
    }

    constructor (processNoise: real, measurementNoise: real)
      ensures State() == Start(processNoise, measurementNoise)
      ensures x == 0.0 && p == 1.0 && q == processNoise && r == measurementNoise && !initialized
    {
      x, p, q, r, initialized := 0.0, 1.0, processNoise, measurementNoise, false;
    }

    method Init(initialValue: real)
      modifies this
      ensures State() == old(State()).(x := initialValue, p := 1.0, initialized := true)
    {
      x := initialValue;
      p := 1.0;
      initialized := true;
    }

    method UpdateWith(measurement: real) returns (smoothed: real)
      requires Defined(State())
      modifies this
      ensures State() == Update(old(State()), measurement) && smoothed == x
      ensures Corrects(old(State()), State(), measurement)
    {
      UpdateCorrects(State(), measurement);
      if !initialized {
        Init(measurement);
        return x;
      }
      p := p + q;
      var k := p / (p + r);
      x := x + k * (measurement - x);
      p := (1.0 - k) * p;
      return x;
    }
  }

  // ---------- One update ----------

  lemma BlendForm(x: real, m: real, p: real, r: real)
    requires p + r != 0.0
    ensures (Blend(x, m, p / (p + r)) - x) * (p + r) == p * (m - x)
  {
    var k, d := p / (p + r), m - x;
    assert k * (p + r) == p;
    assert (k * d) * (p + r) == (k * (p + r)) * d;
  }

  /** The variance after an update, multiplied out. */
  lemma RemainderForm(p: real, r: real)
    requires p + r != 0.0
    ensures Remainder(p / (p + r), p) * (p + r) == p * r
  {
    var k := p / (p + r);
    assert k * (p + r) == p;
    assert ((1.0 - k) * p) * (p + r) == p * (p + r) - (k * (p + r)) * p;
  }

  /** The estimate moves by (p+q)/(p+q+r) of the way to the measurement, and that share of the variance goes. */
  lemma UpdateCorrects(f: Filter, m: real)
    requires Defined(f)
    ensures Corrects(f, Update(f, m), m)
  {
    if f.initialized {
      BlendForm(f.x, m, f.p + f.q, f.r);
      RemainderForm(f.p + f.q, f.r);
    }
  }

  lemma SameQuotient(c: real, d: real, b: real)
    requires b != 0.0 && c * b == d * b
    ensures c == d
  {
  }

  /** And nothing but the update does. */
  lemma OnlyUpdateCorrects(f: Filter, g: Filter, m: real)
    requires Defined(f)
    ensures Corrects(f, g, m) <==> g == Update(f, m)
  {
    UpdateCorrects(f, m);
    if f.initialized && Corrects(f, g, m) {
      var h, b := Update(f, m), f.p + f.q + f.r;
      SameQuotient(g.x - f.x, h.x - f.x, b);
      SameQuotient(g.p, h.p, b);
    }
  }

  /** The step the estimate takes is measured by the variance it is left with. */
  lemma StepByVariance(f: Filter, g: Filter, m: real)
    requires Sound(f) && f.initialized && Corrects(f, g, m)
    ensures (g.x - f.x) * f.r == g.p * (m - f.x)
  {
    var a, b, c, d := f.p + f.q, f.p + f.q + f.r, g.x - f.x, m - f.x;
    SameShare(a, b, c, d, g.p, f.r);
  }

  lemma SameShare(a: real, b: real, c: real, d: real, p: real, r: real)
    requires b != 0.0 && c * b == a * d && p * b == a * r
    ensures c * r == p * d
  {
    assert (c * r) * b == (c * b) * r == (a * d) * r == (a * r) * d == (p * b) * d == (p * d) * b;
  }

  /** a/(a+b) lies strictly between 0 and 1, and b/(a+b) is the rest. */
  lemma Fraction(a: real, b: real)
    requires a > 0.0 && b > 0.0
    ensures 0.0 < a / (a + b) < 1.0
    ensures 1.0 - a / (a + b) == b / (a + b)
  {
    var d, k, l := a + b, a / (a + b), b / (a + b);
    DivCancels(a, d);
    DivCancels(b, d);
    LtByProduct(0.0, k, d);
    LtByProduct(k, 1.0, d);
    Distribute(k, l, d);
    SharesMakeWhole(k + l, d);
  }

  lemma SharesMakeWhole(s: real, d: real)
    requires d > 0.0 && s * d == d
    ensures s == 1.0
  {
  }

  /** The share b/(a+b) falls as a grows. */
  lemma ShareFalls(a: real, c: real, b: real)
    requires 0.0 < a < c && b > 0.0
    ensures b / (c + b) < b / (a + b)
  {
    var k, l := b / (a + b), b / (c + b);
    DivCancels(b, a + b);
    DivCancels(b, c + b);
    Fraction(c, b);
    assert l * (c + b) == k * (a + b);
    MulLt(l, a + b, c + b);
    assert l * (a + b) < k * (a + b);
    LtByProduct(l, k, a + b);
  }

  /** The gain ignores the data and lies strictly between q/(q+r) and 1. */
  lemma GainBounds(f: Filter)
    requires Sound(f)
    ensures f.q / (f.q + f.r) < Gain(f) < 1.0 && 0.0 < Gain(f)
    ensures 1.0 - Gain(f) < Rho(f.q, f.r) < 1.0
  {
    Fraction(f.p + f.q, f.r);
    Fraction(f.q, f.r);
    ShareFalls(f.q, f.p + f.q, f.r);
  }

  lemma RemainderPositive(k: real, p: real)
    requires k < 1.0 && p > 0.0
    ensures Remainder(k, p) > 0.0
  {
  }

  lemma StaysSound(f: Filter, m: real)
    requires Sound(f)
    ensures Sound(Update(f, m)) && Update(f, m).q == f.q && Update(f, m).r == f.r && Update(f, m).initialized
  {
    GainBounds(f);
    RemainderPositive(Gain(f), f.p + f.q);
  }

  /** The new estimate lies between the old one and the measurement. */
  lemma Between(x: real, m: real, k: real)
    requires 0.0 < k < 1.0
    ensures x <= m ==> x <= Blend(x, m, k) <= m
    ensures m <= x ==> m <= Blend(x, m, k) <= x
  {
    var d := m - x;
    assert Blend(x, m, k) == x + k * d;
    assert d >= 0.0 ==> 0.0 <= k * d <= d;
    assert d <= 0.0 ==> 0.0 >= k * d >= d;
  }

  // ---------- What the filter guarantees ----------

  function Updates(f: Filter, ms: seq<real>): (g: Filter)
    requires Sound(f)
    ensures Sound(g) && g.q == f.q && g.r == f.r && (f.initialized || ms != [] ==> g.initialized)
  {
    if ms == [] then f
    else
      StaysSound(Updates(f, ms[..|ms| - 1]), ms[|ms| - 1]);
      Update(Updates(f, ms[..|ms| - 1]), ms[|ms| - 1])
  }

  lemma StepWithin(f: Filter, m: real, lo: real, hi: real)
    requires Sound(f) && lo <= m <= hi
    requires f.initialized ==> lo <= f.x <= hi
    ensures lo <= Update(f, m).x <= hi
  {
    if f.initialized {
      GainBounds(f);
      Between(f.x, m, Gain(f));
    }
  }

  /** From its first measurement on, the estimate stays between the least and the greatest one seen. */
  lemma {:induction false} WithinMeasurements(q: real, r: real, ms: seq<real>, lo: real, hi: real)
    requires q > 0.0 && r > 0.0 && ms != []
    requires forall i | 0 <= i < |ms| :: lo <= ms[i] <= hi
    ensures lo <= Updates(Start(q, r), ms).x <= hi
  {
    var n := |ms| - 1;
    var before := Updates(Start(q, r), ms[..n]);
    if n > 0 {
      WithinMeasurements(q, r, ms[..n], lo, hi);
    }
    StepWithin(before, ms[n], lo, hi);
  }

  lemma BlendMonotone(x: real, y: real, m: real, n: real, k: real)
    requires 0.0 < k < 1.0 && x <= y && m <= n
    ensures Blend(x, m, k) <= Blend(y, n, k)
  {
    Between(y - x, n - m, k);
    assert Blend(y - x, n - m, k) == Blend(y, n, k) - Blend(x, m, k);
  }

  /** A larger measurement on a larger estimate gives a larger estimate; the variance ignores both. */
  lemma UpdateMonotone(f: Filter, g: Filter, m: real, n: real)
    requires Sound(f) && g == f.(x := g.x) && f.x <= g.x && m <= n
    ensures Update(f, m).x <= Update(g, n).x && Update(g, n) == Update(f, m).(x := Update(g, n).x)
  {
    if f.initialized {
      GainBounds(f);
      BlendMonotone(f.x, g.x, m, n, Gain(f));
    }
  }

  lemma ErrorFactor(x: real, m: real, k: real, rho: real)
    requires k < 1.0 && 1.0 - k <= rho
    ensures Abs(Blend(x, m, k) - m) <= rho * Abs(x - m)
  {
    var l, e := 1.0 - k, x - m;
    assert Blend(x, m, k) - m == e * l;
    AbsProduct(e, l);
    MulLe(Abs(e), l, rho);
  }

  /** The error against a constant input shrinks at least by the factor r/(q+r), at every step of the run. */
  lemma ErrorShrinks(f: Filter, m: real)
    requires Sound(f) && f.initialized
    ensures Abs(Update(f, m).x - m) <= Rho(f.q, f.r) * Abs(f.x - m)
  {
    GainBounds(f);
    ErrorFactor(f.x, m, Gain(f), Rho(f.q, f.r));
  }

  /** s is a variance that one update leaves as it is. */
  predicate Steady(s: real, q: real, r: real) {
    s >= 0.0 && s * s + q * s == q * r
  }

  lemma CrossMultiply(p': real, p: real, s: real, q: real, r: real, a: real, b: real)
    requires a == p + q + r && b == s + q + r
    requires p' * a == (p + q) * r && Steady(s, q, r)
    ensures (p' - s) * (a * b) == (r * r) * (p - s)
  {
  }

  lemma ShrinkFactor(rho: real, c: real, r: real, a: real, b: real, e': real, e: real)
    requires c > 0.0 && r > 0.0 && rho * c == r && a >= c && b >= c
    requires e' * (a * b) == (r * r) * e
    ensures Abs(e') <= (rho * rho) * Abs(e)
  {
  }

  /** The distance shrinks from e to e' at least by the square of rho. */
  predicate ContractsTwice(e': real, e: real, rho: real) {
    Abs(e') <= (rho * rho) * Abs(e)
  }

  lemma RhoFactor(q: real, r: real, a: real, b: real, e': real, e: real)
    requires q > 0.0 && r > 0.0 && a >= q + r && b >= q + r
    requires e' * (a * b) == (r * r) * e
    ensures ContractsTwice(e', e, Rho(q, r))
  {
    DivCancels(r, q + r);
    ShrinkFactor(Rho(q, r), q + r, r, a, b, e', e);
  }

  /** One correction of the variance, on the numbers alone. */
  lemma VarianceStep(p': real, p: real, s: real, q: real, r: real)
    requires p > 0.0 && q > 0.0 && r > 0.0 && Steady(s, q, r) && p' * (p + q + r) == (p + q) * r
    ensures ContractsTwice(p' - s, p - s, Rho(q, r))
  {
    CrossMultiply(p', p, s, q, r, p + q + r, s + q + r);
    RhoFactor(q, r, p + q + r, s + q + r, p' - s, p - s);
  }

  /** The variance moves towards its steady value at least by the factor (r/(q+r))^2 at every step. */
  lemma VarianceShrinks(f: Filter, m: real, s: real)
    requires Sound(f) && f.initialized && Steady(s, f.q, f.r)
    ensures ContractsTwice(Update(f, m).p - s, f.p - s, Rho(f.q, f.r))
  {
    RemainderForm(f.p + f.q, f.r);
    VarianceStep(Update(f, m).p, f.p, s, f.q, f.r);
  }

  // ---------- Whole runs ----------

  function Pow(b: real, n: nat): real {
    if n == 0 then 1.0 else b * Pow(b, n - 1)
  }

  /** n measurements of m. */
  function Constant(m: real, n: nat): (ms: seq<real>)
    ensures |ms| == n
  {
    seq(n, _ => m)
  }

  /** The distance e' is at most rho^n times the distance e. */
  predicate ShrunkBy(rho: real, n: nat, e': real, e: real) {
    Abs(e') <= Pow(rho, n) * Abs(e)
  }

  lemma NotShrunk(rho: real, e: real)
    ensures ShrunkBy(rho, 0, e, e)
  {
  }

  lemma ShrinksOnceMore(rho: real, n: nat, e'': real, e': real, e: real)
    requires rho >= 0.0 && ShrunkBy(rho, n, e', e) && Abs(e'') <= rho * Abs(e')
    ensures ShrunkBy(rho, n + 1, e'', e)
  {
    MulLe(rho, Abs(e'), Pow(rho, n) * Abs(e));
  }

  function Square(rho: real): real {
    rho * rho
  }

  lemma ShrinksTwiceMore(rho: real, n: nat, e'': real, e': real, e: real)
    requires ShrunkBy(Square(rho), n, e', e) && ContractsTwice(e'', e', rho)
    ensures ShrunkBy(Square(rho), n + 1, e'', e)
  {
    ShrinksOnceMore(rho * rho, n, e'', e', e);
  }

  lemma ConstantGrows(f: Filter, m: real, n: nat)
    requires Sound(f)
    ensures Updates(f, Constant(m, n + 1)) == Update(Updates(f, Constant(m, n)), m)
  {
    assert Constant(m, n + 1)[..n] == Constant(m, n);
  }

  lemma RhoPositive(q: real, r: real)
    requires q > 0.0 && r > 0.0
    ensures Rho(q, r) > 0.0
  {
    Fraction(r, q);
  }

  /** Over n measurements of a constant input the error shrinks at least by (r/(q+r))^n. */
  lemma {:induction false} ErrorShrinksOverRuns(f: Filter, m: real, n: nat)
    requires Sound(f) && f.initialized
    ensures ShrunkBy(Rho(f.q, f.r), n, Updates(f, Constant(m, n)).x - m, f.x - m)
  {
    if n == 0 {
      NotShrunk(Rho(f.q, f.r), f.x - m);
    } else {
      ErrorShrinksOverRuns(f, m, n - 1);
      ConstantGrows(f, m, n - 1);
      ErrorShrinks(Updates(f, Constant(m, n - 1)), m);
      RhoPositive(f.q, f.r);
      var before, after := Updates(f, Constant(m, n - 1)).x - m, Updates(f, Constant(m, n)).x - m;
      ShrinksOnceMore(Rho(f.q, f.r), n - 1, after, before, f.x - m);
    }
  }

  /** Over any measurements the distance to the steady variance shrinks at least by (r/(q+r))^(2n). */
  lemma {:induction false} VarianceShrinksOverRuns(f: Filter, ms: seq<real>, s: real)
    requires Sound(f) && f.initialized && Steady(s, f.q, f.r)
    ensures ShrunkBy(Square(Rho(f.q, f.r)), |ms|, Updates(f, ms).p - s, f.p - s)
  {
    var n := |ms| - 1;
    if ms == [] {
      NotShrunk(Square(Rho(f.q, f.r)), f.p - s);
    } else {
      VarianceShrinksOverRuns(f, ms[..n], s);
      VarianceShrinks(Updates(f, ms[..n]), ms[n], s);
      ShrinksTwiceMore(Rho(f.q, f.r), n, Updates(f, ms).p - s, Updates(f, ms[..n]).p - s, f.p - s);
    }
  }
}
