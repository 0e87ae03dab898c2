/** The glyph sampling of createText: a 400x100 RGBA bitmap is scanned
    every second row and column, row by row, and each sampled pixel whose
    red byte exceeds 128 becomes a point of the scene. */
module Glyph {
  import opened Geometry

  const Width: nat := 400
  const Height: nat := 100
  /** RGBA: four bytes per pixel, red first. */
  const ImageBytes: nat := Width * Height * 4
  const Threshold: int := 128
  /** Sampled columns and rows: every second one of each. */
  const Columns: nat := 200
  const Rows: nat := 50
  /** Number of sampled pixels. */
  const SampleCount: nat := Columns * Rows

  type Byte = b: int | 0 <= b < 256

  /** The red byte of pixel (x, y) is above the threshold. */
  predicate Bright(data: seq<Byte>, x: nat, y: nat)
    requires |data| == ImageBytes && x < Width && y < Height
  {
    data[(y * Width + x) * 4] > Threshold
  }

  /** Pixel (x, y) in scene coordinates: centred on pixel (200, 50),
      0.05 scene units per pixel, y pointing up. */
  function ToScene(x: int, y: int): Point2 {
    Point2((x - 200) as real * 0.05, -((y - 50) as real * 0.05))
  }

  /** Pixel (x, y) is one the scan keeps. */
  predicate Kept(data: seq<Byte>, x: nat, y: nat)
    requires |data| == ImageBytes
  {
    x < Width && y < Height && x % 2 == 0 && y % 2 == 0 && Bright(data, x, y)
  }

  /** The kept points of row y among its first n sampled columns 0, 2, …, 2(n-1). */
  function RowScan(data: seq<Byte>, y: nat, n: nat): seq<Point2>
    requires |data| == ImageBytes && y < Height && n <= Columns
  {
    if n == 0 then []
    else RowScan(data, y, n - 1) +
         (if Bright(data, 2 * (n - 1), y) then [ToScene(2 * (n - 1), y)] else [])
  }

  /** The kept points of the first m sampled rows 0, 2, …, 2(m-1), row by row. */
  function GridScan(data: seq<Byte>, m: nat): seq<Point2>
    requires |data| == ImageBytes && m <= Rows
  {
    if m == 0 then [] else GridScan(data, m - 1) + RowScan(data, 2 * (m - 1), Columns)
  }

  /** The point list pts of createText. */
  function GlyphPoints(data: seq<Byte>): seq<Point2>
    requires |data| == ImageBytes
  {
    GridScan(data, Rows)
  }

  /** Row-major order in the scene: a higher row first, then left to right. */
  predicate Before(p: Point2, q: Point2) {
    p.y > q.y || (p.y == q.y && p.x < q.x)
  }

  /** The nested sampling loop of createText, building the list by appending. */
  method SamplePoints(data: seq<Byte>) returns (pts: seq<Point2>)
    requires |data| == ImageBytes
    ensures pts == GlyphPoints(data)
  {
    pts := [];
    var y := 0;
    ghost var row := 0;
    while y < Height
      invariant 0 <= y <= Height && y == 2 * row
      invariant pts == GridScan(data, row)
    {
      var x := 0;
      ghost var col := 0;
      while x < Width
        invariant 0 <= x <= Width && x == 2 * col
        invariant pts == GridScan(data, row) + RowScan(data, y, col)
      {
        if data[(y * Width + x) * 4] > Threshold {
          pts := pts + [ToScene(x, y)];
        }
        x, col := x + 2, col + 1;
      }
      y, row := y + 2, row + 1;
    }
  }

  lemma {:induction false} RowScanLength(data: seq<Byte>, y: nat, n: nat)
    requires |data| == ImageBytes && y < Height && n <= Columns
    ensures |RowScan(data, y, n)| <= n
  {
    if n > 0 { RowScanLength(data, y, n - 1); }
  }

  lemma {:induction false} GridScanLength(data: seq<Byte>, m: nat)
    requires |data| == ImageBytes && m <= Rows
    ensures |GridScan(data, m)| <= 200 * m
  {
    if m > 0 {
      var a, b := GridScan(data, m - 1), RowScan(data, 2 * (m - 1), Columns);
      GridScanLength(data, m - 1);
      RowScanLength(data, 2 * (m - 1), Columns);
      assert |GridScan(data, m)| == |a| + |b| <= 200 * (m - 1) + 200;
    }
  }

  /** At most one point per sampled pixel: |pts| <= 200 * 50. */
  lemma GlyphPointsBound(data: seq<Byte>)
    requires |data| == ImageBytes
    ensures |GlyphPoints(data)| <= SampleCount
  {
    GridScanLength(data, Rows);
  }

  /** Every point of a row scan is the image of a bright sampled pixel of that row. */
  lemma {:induction false} RowScanSource(data: seq<Byte>, y: nat, n: nat, p: Point2) returns (x: nat)
    requires |data| == ImageBytes && y < Height && n <= Columns
    requires p in RowScan(data, y, n)
    ensures x < 2 * n && x % 2 == 0 && Bright(data, x, y) && p == ToScene(x, y)
  {
    if p in RowScan(data, y, n - 1) {
      x := RowScanSource(data, y, n - 1, p);
    } else {
      x := 2 * (n - 1);
    }
  }

  /** Every bright sampled pixel of a row has its image in the row scan. */
  lemma {:induction false} RowScanHas(data: seq<Byte>, y: nat, n: nat, x: nat)
    requires |data| == ImageBytes && y < Height && n <= Columns
    requires x < 2 * n && x % 2 == 0 && Bright(data, x, y)
    ensures ToScene(x, y) in RowScan(data, y, n)
  {
    if x < 2 * (n - 1) {
      RowScanHas(data, y, n - 1, x);
    }
  }

  lemma {:induction false} GridScanSource(data: seq<Byte>, m: nat, p: Point2) returns (x: nat, y: nat)
    requires |data| == ImageBytes && m <= Rows
    requires p in GridScan(data, m)
    ensures y < 2 * m && Kept(data, x, y) && p == ToScene(x, y)
  {
    if p in GridScan(data, m - 1) {
      x, y := GridScanSource(data, m - 1, p);
    } else {
      y := 2 * (m - 1);
      x := RowScanSource(data, y, Columns, p);
    }
  }

  lemma {:induction false} GridScanHas(data: seq<Byte>, m: nat, x: nat, y: nat)
    requires |data| == ImageBytes && m <= Rows
    requires y < 2 * m && Kept(data, x, y)
    ensures ToScene(x, y) in GridScan(data, m)
  {
    if y < 2 * (m - 1) {
      GridScanHas(data, m - 1, x, y);
    } else {
      RowScanHas(data, y, Columns, x);
    }
  }

  /** A point is in pts exactly when it is the image of a kept pixel. */
  lemma GlyphPointsMembers(data: seq<Byte>, p: Point2)
    requires |data| == ImageBytes
    ensures p in GlyphPoints(data) <==>
              exists x: nat, y: nat :: Kept(data, x, y) && p == ToScene(x, y)
  {
    if p in GlyphPoints(data) {
      var x, y := GridScanSource(data, Rows, p);
    }
    forall x: nat, y: nat | Kept(data, x, y) && p == ToScene(x, y)
      ensures p in GlyphPoints(data)
    {
      GridScanHas(data, Rows, x, y);
    }
  }

  lemma {:induction false} RowScanSorted(data: seq<Byte>, y: nat, n: nat)
    requires |data| == ImageBytes && y < Height && n <= Columns
    ensures forall p :: p in RowScan(data, y, n) ==> p.y == ToScene(0, y).y && p.x < ToScene(2 * n, y).x
    ensures forall i, j :: 0 <= i < j < |RowScan(data, y, n)| ==>
              Before(RowScan(data, y, n)[i], RowScan(data, y, n)[j])
  {
    if n > 0 {
      RowScanSorted(data, y, n - 1);
    }
  }

  lemma {:induction false} GridScanSorted(data: seq<Byte>, m: nat)
    requires |data| == ImageBytes && m <= Rows
    ensures forall p :: p in GridScan(data, m) ==> p.y > ToScene(0, 2 * m).y
    ensures forall i, j :: 0 <= i < j < |GridScan(data, m)| ==>
              Before(GridScan(data, m)[i], GridScan(data, m)[j])
  {
    if m > 0 {
      GridScanSorted(data, m - 1);
      RowScanSorted(data, 2 * (m - 1), Columns);
      var a, b := GridScan(data, m - 1), RowScan(data, 2 * (m - 1), Columns);
      assert GridScan(data, m) == a + b;
      forall i, j | 0 <= i < j < |a + b|
        ensures Before((a + b)[i], (a + b)[j])
      {
        if j < |a| {
        } else if i < |a| {
          assert a[i] in a && b[j - |a|] in b;
        } else {
          assert (a + b)[i] == b[i - |a|] && (a + b)[j] == b[j - |a|];
        }
      }
    }
  }

  /** pts lists its points in strict row-major order (and so has no repeats). */
  lemma GlyphPointsRowMajor(data: seq<Byte>)
    requires |data| == ImageBytes
    ensures forall i, j :: 0 <= i < j < |GlyphPoints(data)| ==>
              Before(GlyphPoints(data)[i], GlyphPoints(data)[j])
  {
    GridScanSorted(data, Rows);
  }
}
