/**
 Axis-aligned boxes and their intersection over union, as every part of the detector computes it.
 Boxes come from a network and may be inverted or empty.
 */
module Geometry {

  datatype Box = Box(x1: real, y1: real, x2: real, y2: real)

  function MaxReal(a: real, b: real): real { if a < b then b else a }

  function MinReal(a: real, b: real): real { if b < a then b else a }

  /** The length two intervals have in common. */
  function CommonLength(a1: real, a2: real, b1: real, b2: real): real {
    MaxReal(0.0, MinReal(a2, b2) - MaxReal(a1, b1))
  }

  function Inter(a: Box, b: Box): real {
    CommonLength(a.x1, a.x2, b.x1, b.x2) * CommonLength(a.y1, a.y2, b.y1, b.y2)
  }

  function Area(b: Box): real {
    (b.x2 - b.x1) * (b.y2 - b.y1)
  }

  function UnionArea(a: Box, b: Box): real {
    Area(a) + Area(b) - Inter(a, b)
  }

  function Ratio(part: real, whole: real): real {
    if whole > 0.0 then part / whole else 0.0
  }

  function IoU(a: Box, b: Box): real {
    Ratio(Inter(a, b), UnionArea(a, b))
  }

  /** The suppression test of both NMS copies. */
  predicate Overlaps(a: Box, b: Box, threshold: real) {
    UnionArea(a, b) > 0.0 && Inter(a, b) / UnionArea(a, b) > threshold
  }

  /** Positive width and height. */
  predicate Proper(b: Box) {
    b.x1 < b.x2 && b.y1 < b.y2
  }

  lemma IoUSymmetric(a: Box, b: Box)
    ensures Inter(a, b) == Inter(b, a) && UnionArea(a, b) == UnionArea(b, a) && IoU(a, b) == IoU(b, a)
  {
  }

  /** A proper box overlaps itself entirely. */
  lemma IoUSelf(b: Box)
    requires Proper(b)
    ensures IoU(b, b) == 1.0
  {
    var area := Area(b);
    assert Inter(b, b) == area;
    assert area > 0.0;
    assert area / area == 1.0;
  }

  /** An empty or inverted box overlaps nothing, not even itself. */
  lemma ImproperOverlapsNothing(a: Box, b: Box)
    requires !Proper(a)
    ensures IoU(a, b) == 0.0
  {
  }

  lemma PartOfProduct(c: real, d: real, w: real, h: real)
    requires 0.0 <= c <= w && 0.0 <= d <= h
    ensures 0.0 <= c * d <= w * h
  {
    assert c * d <= c * h;
    assert c * h <= w * h;
  }

  lemma InterWithin(a: Box, b: Box)
    requires Proper(a)
    ensures 0.0 <= Inter(a, b) <= Area(a)
  {
    PartOfProduct(CommonLength(a.x1, a.x2, b.x1, b.x2), CommonLength(a.y1, a.y2, b.y1, b.y2), a.x2 - a.x1, a.y2 - a.y1);
  }

  lemma RatioAtMostOne(part: real, whole: real)
    requires 0.0 <= part <= whole
    ensures Ratio(part, whole) <= 1.0
  {
  }

  /** No two boxes overlap by more than the whole. */
  lemma IoUAtMostOne(a: Box, b: Box)
    ensures IoU(a, b) <= 1.0
  {
    IoUSymmetric(a, b);
    if !Proper(a) {
      ImproperOverlapsNothing(a, b);
    } else if !Proper(b) {
      ImproperOverlapsNothing(b, a);
    } else {
      InterWithin(a, b);
      InterWithin(b, a);
      RatioAtMostOne(Inter(a, b), UnionArea(a, b));
    }
  }

  // ---------- Scaling ----------

  function Along(x: real, k: real, d: real): real {
    x * k + d
  }

  /** The box stretched by kx and ky and moved by (dx, dy). */
  function Stretch(b: Box, kx: real, ky: real, dx: real, dy: real): Box {
    Box(Along(b.x1, kx, dx), Along(b.y1, ky, dy), Along(b.x2, kx, dx), Along(b.y2, ky, dy))
  }

  lemma AlongDifference(a: real, b: real, k: real, d: real)
    requires k > 0.0
    ensures Along(b, k, d) - Along(a, k, d) == (b - a) * k
    ensures a < b <==> Along(a, k, d) < Along(b, k, d)
    ensures b - a > 0.0 <==> (b - a) * k > 0.0
  {
    var e := b - a;
    assert Along(b, k, d) - Along(a, k, d) == e * k;
    assert e > 0.0 ==> e * k > 0.0;
    assert e <= 0.0 ==> e * k <= 0.0;
  }

  lemma CommonScales(a1: real, a2: real, b1: real, b2: real, k: real, d: real)
    requires k > 0.0
    ensures CommonLength(Along(a1, k, d), Along(a2, k, d), Along(b1, k, d), Along(b2, k, d))
            == CommonLength(a1, a2, b1, b2) * k
  {
    AlongDifference(a1, b1, k, d);
    AlongDifference(b2, a2, k, d);
    AlongDifference(MaxReal(a1, b1), MinReal(a2, b2), k, d);
  }

  lemma ProductScales(a': real, b': real, a: real, b: real, kx: real, ky: real)
    requires a' == a * kx && b' == b * ky
    ensures a' * b' == (a * b) * (kx * ky)
  {
  }

  lemma StretchScalesArea(a: Box, kx: real, ky: real, dx: real, dy: real)
    requires kx > 0.0 && ky > 0.0
    ensures Area(Stretch(a, kx, ky, dx, dy)) == Area(a) * (kx * ky)
  {
    AlongDifference(a.x1, a.x2, kx, dx);
    AlongDifference(a.y1, a.y2, ky, dy);
    var a' := Stretch(a, kx, ky, dx, dy);
    ProductScales(a'.x2 - a'.x1, a'.y2 - a'.y1, a.x2 - a.x1, a.y2 - a.y1, kx, ky);
  }

  lemma InterOfCommon(a': Box, b': Box, a: Box, b: Box, kx: real, ky: real)
    requires CommonLength(a'.x1, a'.x2, b'.x1, b'.x2) == CommonLength(a.x1, a.x2, b.x1, b.x2) * kx
    requires CommonLength(a'.y1, a'.y2, b'.y1, b'.y2) == CommonLength(a.y1, a.y2, b.y1, b.y2) * ky
    ensures Inter(a', b') == Inter(a, b) * (kx * ky)
  {
    ProductScales(CommonLength(a'.x1, a'.x2, b'.x1, b'.x2), CommonLength(a'.y1, a'.y2, b'.y1, b'.y2),
                  CommonLength(a.x1, a.x2, b.x1, b.x2), CommonLength(a.y1, a.y2, b.y1, b.y2), kx, ky);
  }

  lemma StretchScalesInter(a: Box, b: Box, kx: real, ky: real, dx: real, dy: real)
    requires kx > 0.0 && ky > 0.0
    ensures Inter(Stretch(a, kx, ky, dx, dy), Stretch(b, kx, ky, dx, dy)) == Inter(a, b) * (kx * ky)
  {
    CommonScales(a.x1, a.x2, b.x1, b.x2, kx, dx);
    CommonScales(a.y1, a.y2, b.y1, b.y2, ky, dy);
    InterOfCommon(Stretch(a, kx, ky, dx, dy), Stretch(b, kx, ky, dx, dy), a, b, kx, ky);
  }

  lemma RatioScales(part: real, whole: real, k: real)
    requires k > 0.0
    ensures Ratio(part * k, whole * k) == Ratio(part, whole)
  {
    if whole > 0.0 {
      var t := part / whole;
      assert t * (whole * k) == (t * whole) * k;
      assert whole * k > 0.0;
    } else {
      assert whole * k <= 0.0;
    }
  }

  /** Two areas and an intersection, all scaled by k. */
  lemma PartsScale(a': real, b': real, i': real, a: real, b: real, i: real, k: real)
    requires k > 0.0 && a' == a * k && b' == b * k && i' == i * k
    ensures Ratio(i', a' + b' - i') == Ratio(i, a + b - i)
  {
    assert a * k + b * k - i * k == (a + b - i) * k;
    RatioScales(i, a + b - i, k);
  }

  /** The boxes a and b, drawn with k times the area. */
  predicate Drawn(a': Box, b': Box, a: Box, b: Box, k: real) {
    Inter(a', b') == Inter(a, b) * k && Area(a') == Area(a) * k && Area(b') == Area(b) * k
  }

  lemma SameIoU(a': Box, b': Box, a: Box, b: Box, k: real)
    requires k > 0.0 && Drawn(a', b', a, b, k)
    ensures IoU(a', b') == IoU(a, b)
  {
    PartsScale(Area(a'), Area(b'), Inter(a', b'), Area(a), Area(b), Inter(a, b), k);
  }

  lemma StretchDraws(a: Box, b: Box, kx: real, ky: real, dx: real, dy: real)
    requires kx > 0.0 && ky > 0.0
    ensures Drawn(Stretch(a, kx, ky, dx, dy), Stretch(b, kx, ky, dx, dy), a, b, kx * ky)
  {
    StretchScalesInter(a, b, kx, ky, dx, dy);
    StretchScalesArea(a, kx, ky, dx, dy);
    StretchScalesArea(b, kx, ky, dx, dy);
  }

  lemma Positive(kx: real, ky: real)
    requires kx > 0.0 && ky > 0.0
    ensures kx * ky > 0.0
  {
  }

  /** Overlap does not depend on the scale at which two boxes are drawn. */
  lemma StretchKeepsIoU(a: Box, b: Box, kx: real, ky: real, dx: real, dy: real)
    requires kx > 0.0 && ky > 0.0
    ensures IoU(Stretch(a, kx, ky, dx, dy), Stretch(b, kx, ky, dx, dy)) == IoU(a, b)
  {
    Positive(kx, ky);
    StretchDraws(a, b, kx, ky, dx, dy);
    SameIoU(Stretch(a, kx, ky, dx, dy), Stretch(b, kx, ky, dx, dy), a, b, kx * ky);
  }

  lemma StretchKeepsProper(a: Box, kx: real, ky: real, dx: real, dy: real)
    requires kx > 0.0 && ky > 0.0
    ensures Proper(Stretch(a, kx, ky, dx, dy)) <==> Proper(a)
  {
    AlongDifference(a.x1, a.x2, kx, dx);
    AlongDifference(a.y1, a.y2, ky, dy);
  }
}
