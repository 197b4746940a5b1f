/**
 The energy of a box as a law about the pixels it covers: no clipping and no rounding, only which
 pixels of the whole image lie in the box, how many they are, and how bright they are together.
 */
module EnergyLaw {
  import opened Common
  import opened Geometry
  import opened EnergyEstimator

  /** Whole pixel number n lies between lo and hi; only the far edge of the pixel counts at either end. */
  predicate Within(lo: real, hi: real, n: int) {
    lo < (n + 1) as real <= hi
  }

  predicate Covers(box: Box, col: int, row: int) {
    Within(box.x1, box.x2, col) && Within(box.y1, box.y2, row)
  }

  /** How many of the first n pixels of a row the box covers. */
  function CountInRow(box: Box, row: int, n: nat): nat {
    if n == 0 then 0 else CountInRow(box, row, n - 1) + (if Covers(box, n - 1, row) then 1 else 0)
  }

  /** How many pixels of the first n rows. */
  function Count(box: Box, width: nat, n: nat): nat {
    if n == 0 then 0 else Count(box, width, n - 1) + CountInRow(box, n - 1, width)
  }

  /** The first byte of a pixel; pixels lie row after row, each of as many bytes as there are channels. */
  function FirstByte(img: Image, row: nat, col: nat): nat
    requires img.Valid() && row < img.height && col < img.width
  {
    PixelInBounds(row, col, img.width, img.height, img.channels);
    img.data[(row * img.width + col) * img.channels]
  }

  lemma PixelInBounds(row: nat, col: nat, w: nat, h: nat, c: nat)
    requires row < h && col < w && c >= 1
    ensures 0 <= (row * w + col) * c < w * h * c
    ensures (row * w + col) * c == row * w * c + col * c
  {
    InBounds(row, col, w, h, c);
    SameOffset(row * w, col, c);
  }

  lemma SameOffset(a: nat, b: nat, c: nat)
    ensures (a + b) * c == a * c + b * c
  {
  }

  lemma FirstByteIsBrightness(img: Image, row: nat, col: nat)
    requires img.Valid() && row < img.height && col < img.width
    ensures FirstByte(img, row, col) == Brightness(img, row, col)
  {
    PixelInBounds(row, col, img.width, img.height, img.channels);
  }

  /** How bright the covered ones of the first n pixels of a row are together. */
  function LightInRow(box: Box, img: Image, row: nat, n: nat): nat
    requires img.Valid() && row < img.height && n <= img.width
  {
    if n == 0 then 0
    else LightInRow(box, img, row, n - 1) + (if Covers(box, n - 1, row) then FirstByte(img, row, n - 1) else 0)
  }

  /** How bright those of the first n rows are together. */
  function Light(box: Box, img: Image, n: nat): nat
    requires img.Valid() && n <= img.height
  {
    if n == 0 then 0 else Light(box, img, n - 1) + LightInRow(box, img, n - 1, img.width)
  }

  // ---------- Truncation ----------

  /** Both ends of a side, truncated and clipped, enclose exactly the whole pixels within it. */
  lemma WithinIsClipped(lo: real, hi: real, size: nat, n: int)
    requires 0 <= n < size
    ensures Within(lo, hi, n) <==> Max(0, Truncate(lo)) <= n < Min(size, Truncate(hi))
  {
  }

  /** A pixel of the image is covered exactly if it lies in the clipped region. */
  predicate Window(box: Box, width: nat, height: nat, x1: int, x2: int, y1: int, y2: int) {
    && (forall col | 0 <= col < width :: Within(box.x1, box.x2, col) <==> x1 <= col < x2)
    && (forall row | 0 <= row < height :: Within(box.y1, box.y2, row) <==> y1 <= row < y2)
  }

  lemma ClipIsWindow(box: Box, width: nat, height: nat)
    ensures var g := Clip(box, width, height); Window(box, width, height, g.x1, g.x2, g.y1, g.y2)
  {
    forall col | 0 <= col < width {
      WithinIsClipped(box.x1, box.x2, width, col);
    }
    forall row | 0 <= row < height {
      WithinIsClipped(box.y1, box.y2, height, row);
    }
  }

  // ---------- The window, row by row ----------

  /** n moved into the interval. */
  function Clamp(n: int, lo: int, hi: int): int {
    if n < lo then lo else if hi < n then hi else n
  }

  lemma {:induction false} CountOfRow(box: Box, w: nat, h: nat, x1: nat, x2: nat, y1: nat, y2: nat, row: nat, n: nat)
    requires Window(box, w, h, x1, x2, y1, y2) && x1 <= x2 && row < h && n <= w
    ensures CountInRow(box, row, n) == if y1 <= row < y2 then Clamp(n, x1, x2) - x1 else 0
  {
    if n == 0 {
    } else {
      CountOfRow(box, w, h, x1, x2, y1, y2, row, n - 1);
    }
  }

  lemma {:induction false} CountOfRows(box: Box, w: nat, h: nat, x1: nat, x2: nat, y1: nat, y2: nat, n: nat)
    requires Window(box, w, h, x1, x2, y1, y2) && x1 <= x2 <= w && y1 <= y2 && n <= h
    ensures Count(box, w, n) == (x2 - x1) * (Clamp(n, y1, y2) - y1)
  {
    if n == 0 {
    } else {
      CountOfRows(box, w, h, x1, x2, y1, y2, n - 1);
      CountOfRow(box, w, h, x1, x2, y1, y2, n - 1, w);
      OneMoreRow(x2 - x1, n - 1, y1, y2);
    }
  }

  lemma OneMoreRow(width: nat, row: nat, y1: nat, y2: nat)
    requires y1 <= y2
    ensures width * (Clamp(row + 1, y1, y2) - y1)
            == width * (Clamp(row, y1, y2) - y1) + if y1 <= row < y2 then width else 0
  {
  }

  lemma {:induction false} LightOfRow(box: Box, img: Image, x1: nat, x2: nat, y1: nat, y2: nat, row: nat, n: nat)
    requires img.Valid() && Window(box, img.width, img.height, x1, x2, y1, y2)
    requires x1 <= x2 <= img.width && row < img.height && n <= img.width
    ensures LightInRow(box, img, row, n) == if y1 <= row < y2 then RowSum(img, row, x1, Clamp(n, x1, x2)) else 0
  {
    if n == 0 {
    } else {
      LightOfRow(box, img, x1, x2, y1, y2, row, n - 1);
      FirstByteIsBrightness(img, row, n - 1);
    }
  }

  lemma {:induction false} LightOfRows(box: Box, img: Image, x1: nat, x2: nat, y1: nat, y2: nat, n: nat)
    requires img.Valid() && Window(box, img.width, img.height, x1, x2, y1, y2)
    requires x1 <= x2 <= img.width && y1 <= y2 <= img.height && n <= img.height
    ensures Light(box, img, n) == RegionSum(img, x1, x2, y1, Clamp(n, y1, y2))
  {
    if n == 0 {
    } else {
      LightOfRows(box, img, x1, x2, y1, y2, n - 1);
      LightOfRow(box, img, x1, x2, y1, y2, n - 1, img.width);
    }
  }

  // ---------- An empty window ----------

  lemma {:induction false} NothingInRow(box: Box, w: nat, h: nat, x1: int, x2: int, y1: int, y2: int, row: nat, n: nat)
    requires Window(box, w, h, x1, x2, y1, y2) && (x2 <= x1 || y2 <= y1) && row < h && n <= w
    ensures CountInRow(box, row, n) == 0
  {
    if n == 0 {
    } else {
      NothingInRow(box, w, h, x1, x2, y1, y2, row, n - 1);
    }
  }

  lemma {:induction false} NothingInRows(box: Box, w: nat, h: nat, x1: int, x2: int, y1: int, y2: int, n: nat)
    requires Window(box, w, h, x1, x2, y1, y2) && (x2 <= x1 || y2 <= y1) && n <= h
    ensures Count(box, w, n) == 0
  {
    if n == 0 {
    } else {
      NothingInRows(box, w, h, x1, x2, y1, y2, n - 1);
      NothingInRow(box, w, h, x1, x2, y1, y2, n - 1, w);
    }
  }

  // ---------- The law ----------

  /** Energy times area is the square of the light, in units of full brightness; no pixel, no energy. */
  predicate Obeys(energy: real, count: nat, light: nat) {
    if count == 0 then energy == 0.0 else energy * (count as real * 65025.0) == light as real * light as real
  }

  lemma EnergyOfObeys(sum: nat, size: nat)
    requires size > 0
    ensures Obeys(EnergyOf(sum as real, size), size, sum)
  {
    var n, v := size as real, Normalised(sum as real, size as real);
    var q := sum as real / n;
    assert q * n == sum as real && v * 255.0 == q;
    Squares(n, v, sum as real);
  }

  /** 65025 is 255 squared. */
  lemma Squares(n: real, v: real, sum: real)
    requires (v * 255.0) * n == sum
    ensures (n * v * v) * (n * 65025.0) == sum * sum
  {
    var a := v * n;
    assert n * v * v * (n * 65025.0) == a * a * 65025.0;
    assert sum == a * 255.0;
  }

  lemma WindowCounts(box: Box, img: Image, g: Region)
    requires img.Valid() && g == Clip(box, img.width, img.height) && !g.Empty()
    ensures Count(box, img.width, img.height) == g.Size()
    ensures Light(box, img, img.height) == RegionSum(img, g.x1, g.x2, g.y1, g.y2)
  {
    ClipIsWindow(box, img.width, img.height);
    CountOfRows(box, img.width, img.height, g.x1, g.x2, g.y1, g.y2, img.height);
    LightOfRows(box, img, g.x1, g.x2, g.y1, g.y2, img.height);
  }

  /** The energy of any box in any image, from the pixels of the image it covers. */
  lemma EnergyObeys(box: Box, img: Image)
    requires img.Valid()
    ensures Obeys(Energy(box, img), Count(box, img.width, img.height), Light(box, img, img.height))
  {
    var g := Clip(box, img.width, img.height);
    if g.Empty() {
      ClipIsWindow(box, img.width, img.height);
      NothingInRows(box, img.width, img.height, g.x1, g.x2, g.y1, g.y2, img.height);
    } else {
      WindowCounts(box, img, g);
      EnergyOfObeys(RegionSum(img, g.x1, g.x2, g.y1, g.y2), g.Size());
    }
  }
}
