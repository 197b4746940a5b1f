/**
 The instantaneous energy of a box in the ultraviolet image: the area of the clipped region times
 the square of its mean brightness. The host form walks the image with strides; the device form
 packs the region into a buffer row by row and sums it flat.
 */
module EnergyEstimator {
  import opened Common
  import opened Geometry

  type Pixel = x: int | 0 <= x < 256

  /** The region of a box inside an image, in whole pixels; empty when x2 <= x1 or y2 <= y1. */
  datatype Region = Region(x1: nat, y1: nat, x2: int, y2: int) {
    predicate Empty() {
      x2 <= x1 || y2 <= y1
    }

    function Size(): nat
      requires !Empty()
      ensures Size() > 0
    {
      SizePositive(x2 - x1, y2 - y1);
      (x2 - x1) * (y2 - y1)
    }
  }

  lemma SizePositive(a: int, b: int)
    requires a > 0 && b > 0
    ensures a * b > 0
  {
  }

  function Clip(box: Box, width: nat, height: nat): Region {
    Region(Max(0, Truncate(box.x1)), Max(0, Truncate(box.y1)),
           Min(width, Truncate(box.x2)), Min(height, Truncate(box.y2)))
  }

  // ---------- The specification ----------

  datatype Image = Image(data: seq<Pixel>, width: nat, height: nat, channels: nat) {
    predicate Valid() {
      channels >= 1 && |data| == width * height * channels
    }
  }

  /** Every pixel of the image has its first channel inside the buffer. */
  lemma InBounds(row: nat, col: nat, w: nat, h: nat, c: nat)
    requires row < h && col < w && c >= 1
    ensures 0 <= row * w * c + col * c < w * h * c
  {
    var a, n := row * w, w * h;
    RowFits(w, row, h);
    Scale(a + col + 1, n, c);
    Expand(a, col, c);
  }

  lemma RowFits(w: nat, row: nat, rows: nat)
    requires row < rows
    ensures w * row + w == w * (row + 1) <= w * rows
  {
  }

  lemma Scale(a: nat, b: nat, c: nat)
    requires a <= b
    ensures a * c <= b * c
  {
  }

  lemma Expand(a: nat, col: nat, c: nat)
    ensures (a + col + 1) * c == a * c + col * c + c
    ensures a * c >= 0 && col * c >= 0
  {
  }

  function Brightness(img: Image, row: nat, col: nat): Pixel
    requires img.Valid() && row < img.height && col < img.width
  {
    InBounds(row, col, img.width, img.height, img.channels);
    img.data[row * img.width * img.channels + col * img.channels]
  }

  function RowSum(img: Image, row: nat, x1: nat, x2: nat): nat
    requires img.Valid() && row < img.height && x1 <= x2 <= img.width
  {
    if x1 == x2 then 0 else RowSum(img, row, x1, x2 - 1) + Brightness(img, row, x2 - 1)
  }

  function RegionSum(img: Image, x1: nat, x2: nat, y1: nat, y2: nat): nat
    requires img.Valid() && x1 <= x2 <= img.width && y1 <= y2 <= img.height
  {
    if y1 == y2 then 0 else RegionSum(img, x1, x2, y1, y2 - 1) + RowSum(img, y2 - 1, x1, x2)
  }

  /** Area times squared normalised mean. */
  function EnergyOf(sum: real, size: nat): real
    requires size > 0
  {
    size as real * Normalised(sum, size as real) * Normalised(sum, size as real)
  }

  /** The mean of a sum of n pixels, as a share of full brightness. */
  function Normalised(sum: real, n: real): real
    requires n > 0.0
  {
    sum / n / 255.0
  }

  function Energy(box: Box, img: Image): real
    requires img.Valid()
  {
    var g := Clip(box, img.width, img.height);
    if g.Empty() then 0.0 else EnergyOf(RegionSum(img, g.x1, g.x2, g.y1, g.y2) as real, g.Size())
  }

  // ---------- The two estimators ----------

  method ComputeInstantEnergy(box: Box, img: Image) returns (energy: real)
    requires img.Valid()
    ensures energy == Energy(box, img)
  {
    var x1, y1 := Max(0, Truncate(box.x1)), Max(0, Truncate(box.y1));
    var x2, y2 := Min(img.width, Truncate(box.x2)), Min(img.height, Truncate(box.y2));
    if x2 <= x1 || y2 <= y1 {
      return 0.0;
    }
    var size := Region(x1, y1, x2, y2).Size();
    var luminanceSum, sampleCount := SumStrided(img, x1, x2, y1, y2);
    if sampleCount == 0 {
      return 0.0;
    }
    energy := EnergyFrom(luminanceSum, sampleCount);
  }

  /** The nested loops over rows and strided columns. */
  method SumStrided(img: Image, x1: nat, x2: nat, y1: nat, y2: nat) returns (luminanceSum: real, sampleCount: nat)
    requires img.Valid() && x1 <= x2 <= img.width && y1 <= y2 <= img.height
    ensures luminanceSum == RegionSum(img, x1, x2, y1, y2) as real
    ensures sampleCount == (x2 - x1) * (y2 - y1)
  {
    luminanceSum, sampleCount := 0.0, 0;
    for row := y1 to y2
      invariant luminanceSum == RegionSum(img, x1, x2, y1, row) as real
      invariant sampleCount == (x2 - x1) * (row - y1)
    {
      ghost var before := sampleCount;
      for col := x1 to x2
        invariant luminanceSum == (RegionSum(img, x1, x2, y1, row) + RowSum(img, row, x1, col)) as real
        invariant sampleCount == before + (col - x1)
      {
        InBounds(row, col, img.width, img.height, img.channels);
        luminanceSum := luminanceSum + img.data[row * img.width * img.channels + col * img.channels] as real;
        sampleCount := sampleCount + 1;
      }
      assert (x2 - x1) * (row + 1 - y1) == (x2 - x1) * (row - y1) + (x2 - x1);
    }
  }

  /** The last three lines of both estimators. */
  method EnergyFrom(luminanceSum: real, size: nat) returns (energy: real)
    requires size > 0
    ensures energy == EnergyOf(luminanceSum, size)
  {
    var meanLuminance := luminanceSum / size as real;
    var normalizedLuminance := meanLuminance / 255.0;
    energy := size as real * normalizedLuminance * normalizedLuminance;
  }

  function Sum(s: seq<Pixel>): nat {
    if s == [] then 0 else Sum(s[..|s| - 1]) + s[|s| - 1]
  }

  /** The rows y1..y2 of the region, one after the other. */
  function Packed(img: Image, x1: nat, x2: nat, y1: nat, y2: nat): (p: seq<Pixel>)
    requires img.Valid() && img.channels == 1 && x1 <= x2 <= img.width && y1 <= y2 <= img.height
    ensures |p| == (x2 - x1) * (y2 - y1)
  {
    if y1 == y2 then []
    else
      var start := (y2 - 1) * img.width + x1;
      RowInBounds(y2 - 1, x1, x2, img.width, img.height);
      assert (x2 - x1) * (y2 - y1) == (x2 - x1) * (y2 - 1 - y1) + (x2 - x1);
      Packed(img, x1, x2, y1, y2 - 1) + img.data[start..start + (x2 - x1)]
  }

  lemma RowInBounds(row: nat, x1: nat, x2: nat, w: nat, h: nat)
    requires row < h && x1 <= x2 <= w
    ensures 0 <= row * w + x1 <= row * w + x1 + (x2 - x1) <= w * h
  {
    assert (row + 1) * w <= h * w;
  }

  method ComputeInstantEnergyGpu(box: Box, img: Image) returns (energy: real)
    requires img.Valid() && img.channels == 1
    ensures energy == Energy(box, img)
  {
    var x1, y1 := Max(0, Truncate(box.x1)), Max(0, Truncate(box.y1));
    var x2, y2 := Min(img.width, Truncate(box.x2)), Min(img.height, Truncate(box.y2));
    if x2 <= x1 || y2 <= y1 {
      return 0.0;
    }
    var roiSize := Region(x1, y1, x2, y2).Size();
    var hostBuf := PackRows(img, x1, x2, y1, y2, roiSize);
    var luminanceSum := SumFlat(hostBuf);
    FlatSumIsRegionSum(img, x1, x2, y1, y2);
    energy := EnergyFrom(luminanceSum, roiSize);
  }

  method SumFlat(hostBuf: array<Pixel>) returns (luminanceSum: real)
    ensures luminanceSum == Sum(hostBuf[..]) as real
  {
    luminanceSum := 0.0;
    for i := 0 to hostBuf.Length
      invariant luminanceSum == Sum(hostBuf[..i]) as real
    {
      assert hostBuf[..i + 1][..i] == hostBuf[..i];
      luminanceSum := luminanceSum + hostBuf[i] as real;
    }
    assert hostBuf[..hostBuf.Length] == hostBuf[..];
  }

  /** The device-to-host copy, one row of the region at a time. */
  method PackRows(img: Image, x1: nat, x2: nat, y1: nat, y2: nat, roiSize: nat) returns (hostBuf: array<Pixel>)
    requires img.Valid() && img.channels == 1 && x1 <= x2 <= img.width && y1 <= y2 <= img.height
    requires roiSize == (x2 - x1) * (y2 - y1)
    ensures hostBuf[..] == Packed(img, x1, x2, y1, y2)
  {
    var roiW := x2 - x1;
    hostBuf := new Pixel[roiSize];
    var at: nat := 0;
    for row := y1 to y2
      invariant HasRows(hostBuf, at, img, x1, x2, y1, row)
    {
      var src := row * img.width + x1;
      PackOneMore(img, x1, x2, y1, row, y2, src, hostBuf[..at], roiSize);
      CopyRow(hostBuf, at, img.data, src, roiW);
      at := at + roiW;
    }
  }

  ghost predicate HasRows(hostBuf: array<Pixel>, at: nat, img: Image, x1: nat, x2: nat, y1: nat, row: nat)
    requires img.Valid() && img.channels == 1 && x1 <= x2 <= img.width && y1 <= row <= img.height
    reads hostBuf
  {
    at <= hostBuf.Length && hostBuf[..at] == Packed(img, x1, x2, y1, row)
  }

  /** Row `row` of the region goes right behind the rows before it, and there is room for it. */
  lemma PackOneMore(img: Image, x1: nat, x2: nat, y1: nat, row: nat, y2: nat, src: int, rows: seq<Pixel>, room: nat)
    requires img.Valid() && img.channels == 1 && x1 <= x2 <= img.width && y1 <= row < y2 <= img.height
    requires src == row * img.width + x1
    requires rows == Packed(img, x1, x2, y1, row) && room == |Packed(img, x1, x2, y1, y2)|
    ensures 0 <= src && src + (x2 - x1) <= |img.data| && |rows| + (x2 - x1) <= room
    ensures rows + img.data[src..src + (x2 - x1)] == Packed(img, x1, x2, y1, row + 1)
  {
    RowInBounds(row, x1, x2, img.width, img.height);
    RowFits(x2 - x1, row - y1, y2 - y1);
  }

  method CopyRow(hostBuf: array<Pixel>, at: nat, data: seq<Pixel>, src: nat, n: nat)
    requires at + n <= hostBuf.Length && src + n <= |data|
    modifies hostBuf
    ensures hostBuf[..at + n] == old(hostBuf[..at]) + data[src..src + n]
  {
    forall k | 0 <= k < n {
      hostBuf[at + k] := data[src + k];
    }
  }

  lemma {:induction false} SumOfConcat(a: seq<Pixel>, b: seq<Pixel>)
    ensures Sum(a + b) == Sum(a) + Sum(b)
  {
    if b == [] {
      assert a + b == a;
    } else {
      assert (a + b)[..|a + b| - 1] == a + b[..|b| - 1];
      SumOfConcat(a, b[..|b| - 1]);
    }
  }

  lemma {:induction false} RowIsSlice(img: Image, row: nat, x1: nat, x2: nat)
    requires img.Valid() && img.channels == 1 && row < img.height && x1 <= x2 <= img.width
    requires 0 <= row * img.width + x1 <= row * img.width + x2 <= |img.data|
    ensures Sum(img.data[row * img.width + x1..row * img.width + x2]) == RowSum(img, row, x1, x2)
  {
    if x1 == x2 {
    } else {
      RowIsSlice(img, row, x1, x2 - 1);
      var lo, hi := row * img.width + x1, row * img.width + x2;
      assert img.data[lo..hi][..hi - lo - 1] == img.data[lo..hi - 1];
      assert row * img.width * 1 + (x2 - 1) * 1 == hi - 1;
    }
  }

  /** The last packed row adds the sum of its pixels. */
  lemma LastRow(img: Image, x1: nat, x2: nat, y1: nat, row: nat)
    requires img.Valid() && img.channels == 1 && x1 <= x2 <= img.width && y1 <= row < img.height
    ensures Sum(Packed(img, x1, x2, y1, row + 1)) == Sum(Packed(img, x1, x2, y1, row)) + RowSum(img, row, x1, x2)
  {
    var src := row * img.width + x1;
    var rows := Packed(img, x1, x2, y1, row);
    PackOneMore(img, x1, x2, y1, row, row + 1, src, rows, |Packed(img, x1, x2, y1, row + 1)|);
    SumOfConcat(rows, img.data[src..src + (x2 - x1)]);
    RowIsSlice(img, row, x1, x2);
  }

  /** Packing rows into a buffer and summing it flat gives the nested sum. */
  lemma {:induction false} FlatSumIsRegionSum(img: Image, x1: nat, x2: nat, y1: nat, y2: nat)
    requires img.Valid() && img.channels == 1 && x1 <= x2 <= img.width && y1 <= y2 <= img.height
    ensures Sum(Packed(img, x1, x2, y1, y2)) == RegionSum(img, x1, x2, y1, y2)
  {
    if y1 == y2 {
    } else {
      FlatSumIsRegionSum(img, x1, x2, y1, y2 - 1);
      LastRow(img, x1, x2, y1, y2 - 1);
    }
  }

  // ---------- Bounds and monotonicity ----------

  lemma {:induction false} RowSumBound(img: Image, row: nat, x1: nat, x2: nat)
    requires img.Valid() && row < img.height && x1 <= x2 <= img.width
    ensures RowSum(img, row, x1, x2) <= 255 * (x2 - x1)
  {
    if x1 == x2 {
    } else {
      RowSumBound(img, row, x1, x2 - 1);
    }
  }

  lemma {:induction false} RegionSumBound(img: Image, x1: nat, x2: nat, y1: nat, y2: nat)
    requires img.Valid() && x1 <= x2 <= img.width && y1 <= y2 <= img.height
    ensures RegionSum(img, x1, x2, y1, y2) <= 255 * ((x2 - x1) * (y2 - y1))
  {
    if y1 == y2 {
    } else {
      RegionSumBound(img, x1, x2, y1, y2 - 1);
      RowSumBound(img, y2 - 1, x1, x2);
      assert (x2 - x1) * (y2 - y1) == (x2 - x1) * (y2 - 1 - y1) + (x2 - x1);
    }
  }

  /** At least as bright, pixel by pixel. */
  ghost predicate Brighter(a: Image, b: Image) {
    && a.Valid() && b.Valid() && b == a.(data := b.data)
    && forall i | 0 <= i < |a.data| :: a.data[i] <= b.data[i]
  }

  lemma {:induction false} RowSumMonotone(a: Image, b: Image, row: nat, x1: nat, x2: nat)
    requires Brighter(a, b) && row < a.height && x1 <= x2 <= a.width
    ensures RowSum(a, row, x1, x2) <= RowSum(b, row, x1, x2)
  {
    if x1 == x2 {
    } else {
      RowSumMonotone(a, b, row, x1, x2 - 1);
      InBounds(row, x2 - 1, a.width, a.height, a.channels);
    }
  }

  lemma {:induction false} RegionSumMonotone(a: Image, b: Image, x1: nat, x2: nat, y1: nat, y2: nat)
    requires Brighter(a, b) && x1 <= x2 <= a.width && y1 <= y2 <= a.height
    ensures RegionSum(a, x1, x2, y1, y2) <= RegionSum(b, x1, x2, y1, y2)
  {
    if y1 == y2 {
    } else {
      RegionSumMonotone(a, b, x1, x2, y1, y2 - 1);
      RowSumMonotone(a, b, y2 - 1, x1, x2);
    }
  }

  lemma SquareMonotone(size: real, m: real, n: real)
    requires size >= 0.0 && 0.0 <= m <= n
    ensures 0.0 <= size * m * m <= size * n * n
  {
  }

  lemma NormalisedMonotone(a: real, b: real, n: real)
    requires n > 0.0 && 0.0 <= a <= b <= 255.0 * n
    ensures 0.0 <= Normalised(a, n) <= Normalised(b, n) <= 1.0
  {
    QuotientMonotone(0.0, a, n);
    QuotientMonotone(a, b, n);
    QuotientMonotone(b, 255.0 * n, n);
    assert (255.0 * n) / n == 255.0;
  }

  lemma QuotientMonotone(a: real, b: real, d: real)
    requires a <= b && d > 0.0
    ensures a / d <= b / d
  {
  }

  lemma EnergyOfMonotone(a: real, b: real, size: nat)
    requires size > 0 && 0.0 <= a <= b <= 255.0 * size as real
    ensures 0.0 <= EnergyOf(a, size) <= EnergyOf(b, size) <= size as real
  {
    var n := size as real;
    NormalisedMonotone(a, b, n);
    SquareMonotone(n, Normalised(a, n), Normalised(b, n));
    SquareMonotone(n, Normalised(b, n), 1.0);
  }

  /** The energy is non-negative, at most the clipped area, and grows with every pixel. */
  lemma EnergyMonotone(box: Box, a: Image, b: Image)
    requires Brighter(a, b)
    ensures var g := Clip(box, a.width, a.height);
            0.0 <= Energy(box, a) <= Energy(box, b) <= if g.Empty() then 0.0 else g.Size() as real
  {
    var g := Clip(box, a.width, a.height);
    if !g.Empty() {
      RegionSumMonotone(a, b, g.x1, g.x2, g.y1, g.y2);
      RegionSumBound(b, g.x1, g.x2, g.y1, g.y2);
      EnergyOfMonotone(RegionSum(a, g.x1, g.x2, g.y1, g.y2) as real, RegionSum(b, g.x1, g.x2, g.y1, g.y2) as real,
                       g.Size());
    }
  }

  lemma ClipWithinImage(box: Box, width: nat, height: nat)
    ensures var g := Clip(box, width, height); !g.Empty() ==> g.Size() <= width * height
  {
    var g := Clip(box, width, height);
    if !g.Empty() {
      ProductMonotone(g.x2 - g.x1, g.y2 - g.y1, width, height);
    }
  }

  /** No box in an image can hold more energy than the image has pixels. */
  lemma EnergyWithinImage(box: Box, img: Image, pixels: nat)
    requires img.Valid() && pixels == img.width * img.height
    ensures 0.0 <= Energy(box, img) <= pixels as real
  {
    EnergyMonotone(box, img, img);
    ClipWithinImage(box, img.width, img.height);
  }

  lemma ProductMonotone(a: nat, b: nat, c: nat, d: nat)
    requires a <= c && b <= d
    ensures a * b <= c * d
  {
  }
}
