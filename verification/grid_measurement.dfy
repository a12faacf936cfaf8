/**
 * The grid-measurement screen: a fixed region of the canonical image is analysed with a fixed
 * shape filter, accepted contours are bucketed by bounding-box centre into a 5×5 grid, and the
 * summary reports the total, a ±10% band, an adjusted estimate and the mean area in mm².
 */
module GridMeasurement {
  import opened Optional
  import opened Counting
  import opened Detection

  const CanonicalCols := 640
  const CanonicalRows := 480

  /** Width and height of the cropped image every later step works on. */
  const CropCols := 380
  const CropRows := 315

  /** The analysed region of the canonical image: x, y, width, height in pixels. */
  const Zone := Box(130, 35, CropCols, CropRows)

  const GridSide := 5

  /** Pixel extent of one grid cell: the crop's size divided by 5 in integer arithmetic. */
  const CellWidth := CropCols / GridSide
  const CellHeight := CropRows / GridSide

  /** Physical extent of the counting grid. */
  const GridWidthMm: real := 20.0
  const GridHeightMm: real := 20.0

  /** The fixed error margin, in percent. */
  const MarginPercent: real := 10.0

  /** A region OpenCV accepts as a sub-matrix of a `cols`×`rows` image. */
  predicate Fits(zone: Box, cols: int, rows: int)
  {
    0 <= zone.x && zone.x + zone.width <= cols && 0 <= zone.y && zone.y + zone.height <= rows
  }

  /** The crop lies inside the 640×480 canonical image and is 380×315 pixels. */
  lemma ZoneFitsCanonical()
    ensures Fits(Zone, CanonicalCols, CanonicalRows)
    ensures Zone.width == CropCols && Zone.height == CropRows
    ensures CellWidth == 76 && CellHeight == 63
  {
  }

  /** The screen's fixed filter: area in [3, 70], circularity at least 0.50, solidity at least 0.80. */
  predicate GridAccept(m: Metrics)
  {
    3.0 <= m.area <= 70.0 && Circularity(m.area, m.perimeter) >= 0.50 && Solidity(m.area, m.hullArea) >= 0.80
  }

  /** There is no aspect-ratio cutoff: the bounding box plays no part in the filter. */
  lemma GridFilterIgnoresBox(m: Metrics, b: Box)
    ensures GridAccept(m.(box := b)) == GridAccept(m)
  {
  }

  /** Java's `(int)` cast of a quotient: division truncating toward zero. */
  function TruncDiv(a: int, d: int): (q: int)
    requires d > 0
    ensures a >= 0 ==> q * d <= a < q * d + d
    ensures a < 0 ==> q * d - d < a <= q * d
  {
    if a >= 0 then a / d else -((-a) / d)
  }

  /** Twice the bounding-box centre, which keeps the half-pixel centre integral. */
  function CentreX2(b: Box): int
  {
    2 * b.x + b.width
  }

  function CentreY2(b: Box): int
  {
    2 * b.y + b.height
  }

  /**
   * The cell (row, column) holding the bounding-box centre, or None when the centre falls
   * outside the 5×5 range. A centre at a non-negative position lands in the cell whose pixel
   * extent contains it; because the cast truncates toward zero, a centre less than one cell
   * to the left of or above the crop still lands in column or row 0.
   */
  function Cell(b: Box): (r: Option<(int, int)>)
    ensures r.Some? ==> 0 <= r.value.0 < GridSide && 0 <= r.value.1 < GridSide
    ensures CentreX2(b) >= 0 && CentreY2(b) >= 0 ==>
              (r.Some? <==> CentreX2(b) < 2 * GridSide * CellWidth && CentreY2(b) < 2 * GridSide * CellHeight)
    ensures r.Some? && CentreX2(b) >= 0 ==>
              2 * CellWidth * r.value.1 <= CentreX2(b) < 2 * CellWidth * (r.value.1 + 1)
    ensures r.Some? && CentreY2(b) >= 0 ==>
              2 * CellHeight * r.value.0 <= CentreY2(b) < 2 * CellHeight * (r.value.0 + 1)
    ensures r.Some? <==> -2 * CellWidth < CentreX2(b) < 2 * GridSide * CellWidth
                         && -2 * CellHeight < CentreY2(b) < 2 * GridSide * CellHeight
    ensures r.Some? && CentreX2(b) < 0 ==> r.value.1 == 0
    ensures r.Some? && CentreY2(b) < 0 ==> r.value.0 == 0
  {
    assert CellWidth == 76 && CellHeight == 63;
    var column := TruncDiv(CentreX2(b), 2 * CellWidth);
    var row := TruncDiv(CentreY2(b), 2 * CellHeight);
    if 0 <= row < GridSide && 0 <= column < GridSide then Some((row, column)) else None
  }

  /** A box inside the crop */
  predicate InsideCrop(b: Box)
  {
    0 <= b.x && b.x + b.width <= CropCols && 0 <= b.y && b.y + b.height <= CropRows
  }

  /** The crop is a whole number of cells each way, so no box inside it is ever dropped. */
  lemma InsideCropNeverDropped(b: Box)
    requires InsideCrop(b)
    ensures Cell(b).Some?
  {
  }

  /** A contour is recorded when it passes the filter and its centre lands in the grid. */
  predicate Kept(m: Metrics)
  {
    GridAccept(m) && Cell(m.box).Some?
  }

  /** A kept contour of the given area. */
  function KeptWithArea(a: real): Metrics -> bool
  {
    m => Kept(m) && m.area == a
  }

  /**
   * The areas recorded by the contour loop, in contour order: each value occurs as often as
   * a kept contour has that area.
   */
  function Recorded(ms: seq<Metrics>): (areas: seq<real>)
    ensures |areas| == CountIf(ms, Kept)
    ensures forall k :: 0 <= k < |areas| ==> 3.0 <= areas[k] <= 70.0
    ensures forall a :: multiset(areas)[a] == CountIf(ms, KeptWithArea(a))
  {
    if |ms| == 0 then []
    else
      var n := |ms| - 1;
      var prefix := Recorded(ms[..n]);
      var m := ms[n];
      if Kept(m) then prefix + [m.area] else prefix
  }

  /** Every contour inside the crop that passes the filter is recorded. */
  lemma AllInsideRecorded(ms: seq<Metrics>)
    ensures (forall k :: 0 <= k < |ms| ==> InsideCrop(ms[k].box)) ==> |Recorded(ms)| == CountIf(ms, GridAccept)
  {
    if forall k :: 0 <= k < |ms| ==> InsideCrop(ms[k].box) {
      forall k | 0 <= k < |ms|
        ensures Kept(ms[k]) == GridAccept(ms[k])
      {
        InsideCropNeverDropped(ms[k].box);
      }
      CountIfAgree(ms, Kept, GridAccept);
    }
  }

  predicate IsGrid(g: seq<seq<nat>>)
  {
    |g| == GridSide && forall r :: 0 <= r < |g| ==> |g[r]| == GridSide
  }

  const EmptyRow: seq<nat> := [0, 0, 0, 0, 0]
  const EmptyGrid: seq<seq<nat>> := [EmptyRow, EmptyRow, EmptyRow, EmptyRow, EmptyRow]

  function Bump(g: seq<seq<nat>>, r: int, c: int): (h: seq<seq<nat>>)
    requires IsGrid(g) && 0 <= r < GridSide && 0 <= c < GridSide
    ensures IsGrid(h)
  {
    g[r := g[r][c := g[r][c] + 1]]
  }

  /** A cell of the 5×5 grid, as (row, column). */
  type CellIndex = rc: (int, int) | 0 <= rc.0 < GridSide && 0 <= rc.1 < GridSide witness (0, 0)

  /** The table of counts built from a sequence whose elements `slot` places in a cell or skips. */
  function TallyBy<T>(s: seq<T>, slot: T -> Option<CellIndex>): (g: seq<seq<nat>>)
    ensures IsGrid(g)
  {
    if |s| == 0 then EmptyGrid
    else
      var g := TallyBy(s[..|s| - 1], slot);
      match slot(s[|s| - 1])
      case Some(rc) => Bump(g, rc.0, rc.1)
      case None => g
  }

  function InSlot<T>(slot: T -> Option<CellIndex>, r: int, c: int): T -> bool
  {
    x => slot(x) == Some((r, c))
  }

  /** Each cell of the table holds the number of elements placed in it. */
  lemma {:induction false} TallyByCell<T>(s: seq<T>, slot: T -> Option<CellIndex>, r: int, c: int)
    requires 0 <= r < GridSide && 0 <= c < GridSide
    ensures TallyBy(s, slot)[r][c] == CountIf(s, InSlot(slot, r, c))
  {
    if |s| > 0 {
      TallyByCell(s[..|s| - 1], slot, r, c);
    }
  }

  /** The cell a contour is tallied in: none when it fails the filter or falls outside the grid. */
  function Slot(m: Metrics): (r: Option<CellIndex>)
    ensures r.Some? <==> Kept(m)
    ensures r.Some? ==> Cell(m.box) == Some(r.value)
  {
    if GridAccept(m) then
      match Cell(m.box)
      case Some(rc) => Some(rc)
      case None => None
    else None
  }

  /** The 5×5 table of counts the contour loop builds. */
  function Tally(ms: seq<Metrics>): (g: seq<seq<nat>>)
    ensures IsGrid(g)
  {
    TallyBy(ms, Slot)
  }

  function InCell(r: int, c: int): Metrics -> bool
  {
    InSlot(Slot, r, c)
  }

  /** Each cell holds the number of accepted contours whose centre lies in it. */
  lemma TallyCell(ms: seq<Metrics>, r: int, c: int)
    requires 0 <= r < GridSide && 0 <= c < GridSide
    ensures Tally(ms)[r][c] == CountIf(ms, InCell(r, c))
  {
    TallyByCell(ms, Slot, r, c);
  }

  /** Every one of the 25 cells holds its count of kept contours. */
  lemma TallyAllCells(ms: seq<Metrics>)
    ensures forall r, c :: 0 <= r < GridSide && 0 <= c < GridSide ==> Tally(ms)[r][c] == CountIf(ms, InCell(r, c))
  {
    forall r, c | 0 <= r < GridSide && 0 <= c < GridSide
      ensures Tally(ms)[r][c] == CountIf(ms, InCell(r, c))
    {
      TallyCell(ms, r, c);
    }
  }

  function GridSum(g: seq<seq<nat>>): nat
  {
    if |g| == 0 then 0 else GridSum(g[..|g| - 1]) + SumNat(g[|g| - 1])
  }

  lemma {:induction false} GridSumUpdate(g: seq<seq<nat>>, i: int, row: seq<nat>)
    requires 0 <= i < |g|
    ensures GridSum(g[i := row]) + SumNat(g[i]) == GridSum(g) + SumNat(row)
  {
    var n := |g| - 1;
    if i < n {
      assert g[i := row][..n] == g[..n][i := row];
      GridSumUpdate(g[..n], i, row);
    } else {
      assert g[i := row][..n] == g[..n];
    }
  }

  lemma BumpSum(g: seq<seq<nat>>, r: int, c: int)
    requires IsGrid(g) && 0 <= r < GridSide && 0 <= c < GridSide
    ensures GridSum(Bump(g, r, c)) == GridSum(g) + 1
  {
    SumNatUpdate(g[r], c, g[r][c] + 1);
    GridSumUpdate(g, r, g[r][c := g[r][c] + 1]);
  }

  lemma {:induction false} GridSumZeros(g: seq<seq<nat>>)
    requires forall r, c :: 0 <= r < |g| && 0 <= c < |g[r]| ==> g[r][c] == 0
    ensures GridSum(g) == 0
  {
    if |g| > 0 {
      GridSumZeros(g[..|g| - 1]);
      SumNatZeros(g[|g| - 1]);
    }
  }

  /** The 25 cell counts add up to the number of recorded areas. */
  lemma {:induction false} TallySum(ms: seq<Metrics>)
    ensures GridSum(Tally(ms)) == |Recorded(ms)|
  {
    if |ms| == 0 {
      GridSumZeros(EmptyGrid);
    } else {
      var p := ms[..|ms| - 1];
      TallySum(p);
      var m := ms[|ms| - 1];
      if Slot(m).Some? {
        BumpSum(Tally(p), Slot(m).value.0, Slot(m).value.1);
      }
    }
  }

  /** The contour loop of the grid screen: bucket every kept contour and record its area. */
  method MeasureGrid(ms: seq<Metrics>) returns (cells: seq<seq<nat>>, areas: seq<real>)
    ensures IsGrid(cells)
    ensures forall r, c :: 0 <= r < GridSide && 0 <= c < GridSide ==> cells[r][c] == CountIf(ms, InCell(r, c))
    ensures areas == Recorded(ms)
    ensures GridSum(cells) == |areas|
  {
    cells := EmptyGrid;
    areas := [];
    var i := 0;
    while i < |ms|
      invariant 0 <= i <= |ms|
      invariant cells == Tally(ms[..i])
      invariant areas == Recorded(ms[..i])
    {
      var m := ms[i];
      assert ms[..i + 1][..i] == ms[..i];
      if GridAccept(m) {
        var cell := Cell(m.box);
        if cell.Some? {
          var (row, column) := cell.value;
          cells := cells[row := cells[row][column := cells[row][column] + 1]];
          areas := areas + [m.area];
        }
      }
      i := i + 1;
    }
    assert ms[..|ms|] == ms;
    TallyAllCells(ms);
    TallySum(ms);
  }

  /** Java's Math.round on an exact value: the nearest integer, halves rounded up. */
  function RoundHalfUp(x: real): (r: int)
    ensures x - 0.5 < r as real <= x + 0.5
  {
    (x + 0.5).Floor
  }

  lemma RoundMonotone(x: real, y: real)
    requires x <= y
    ensures RoundHalfUp(x) <= RoundHalfUp(y)
  {
  }

  /** The lower end of the expected range: the total less 10%, rounded. */
  function ExpectedMin(total: nat): (r: int)
    ensures 0 <= r <= total
  {
    RoundHalfUp(total as real * (1.0 - MarginPercent / 100.0))
  }

  /** The upper end of the expected range: the total plus 10%, rounded. */
  function ExpectedMax(total: nat): (r: int)
    ensures total <= r
  {
    RoundHalfUp(total as real * (1.0 + MarginPercent / 100.0))
  }

  /** The estimated quantity: the total divided by 1 − 5%, rounded. */
  function Estimated(total: nat): (r: int)
    ensures total <= r
  {
    RoundHalfUp(total as real / (1.0 - MarginPercent / 200.0))
  }

  /** The floor of a rational is the integer quotient, which pins each rounded value down exactly. */
  lemma FloorUnique(y: real, q: int, r: int)
    requires q as real <= y < q as real + 1.0
    requires r as real <= y < r as real + 1.0
    ensures q == r
  {
  }

  /** The three rounded figures in integer arithmetic. */
  lemma {:induction false} BandIntegerForm(total: nat)
    ensures ExpectedMin(total) == (9 * total + 5) / 10
    ensures ExpectedMax(total) == (11 * total + 5) / 10
    ensures Estimated(total) == (40 * total + 19) / 38
  {
    var t := total as real;
    var a := (9 * total + 5) / 10;
    assert 10 * a <= 9 * total + 5 < 10 * a + 10;
    FloorUnique(t * 0.9 + 0.5, a, ExpectedMin(total));
    var b := (11 * total + 5) / 10;
    assert 10 * b <= 11 * total + 5 < 10 * b + 10;
    FloorUnique(t * 1.1 + 0.5, b, ExpectedMax(total));
    var e := (40 * total + 19) / 38;
    assert 38 * e <= 40 * total + 19 < 38 * e + 38;
    assert t / 0.95 == t * 20.0 / 19.0;
    FloorUnique(t * 20.0 / 19.0 + 0.5, e, Estimated(total));
  }

  /** The estimate lies inside the expected range. */
  lemma EstimateWithinBand(total: nat)
    ensures ExpectedMin(total) <= Estimated(total) <= ExpectedMax(total)
  {
    var t := total as real;
    assert t / 0.95 <= t * 1.1;
    RoundMonotone(t / 0.95, t * 1.1);
  }

  /** Pixels per millimetre: the crop's width and height over 20 mm, averaged. */
  const PixelsPerMm: real := (CropCols as real / GridWidthMm + CropRows as real / GridHeightMm) / 2.0

  /** Square millimetres per square pixel. */
  const Mm2PerPx2: real := 1.0 / (PixelsPerMm * PixelsPerMm)

  lemma ScaleValue()
    ensures PixelsPerMm == 17.375
    ensures Mm2PerPx2 * 301.890625 == 1.0
  {
  }

  /**
   * The mean recorded area converted to mm², or None (the "no spores detected" line) when
   * nothing was recorded; the mean is never taken of an empty list.
   */
  function MeanAreaMm2(areas: seq<real>): (r: Option<real>)
    ensures r.None? <==> |areas| == 0
    ensures r.Some? ==> r.value * (PixelsPerMm * PixelsPerMm) * (|areas| as real) == SumReals(areas)
  {
    if |areas| == 0 then None
    else
      ScaleValue();
      var meanPx := SumReals(areas) / |areas| as real;
      assert meanPx * (|areas| as real) == SumReals(areas);
      Some(meanPx * Mm2PerPx2)
  }

  /** Areas between `lo` and `hi` give a reported mean between lo and hi converted to mm². */
  lemma MeanAreaBounds(areas: seq<real>, lo: real, hi: real)
    requires forall k :: 0 <= k < |areas| ==> lo <= areas[k] <= hi
    ensures MeanAreaMm2(areas).Some? ==>
              lo * Mm2PerPx2 <= MeanAreaMm2(areas).value <= hi * Mm2PerPx2
  {
    if |areas| > 0 {
      SumRealsBounds(areas, lo, hi);
      ScaleValue();
      var n := |areas| as real;
      var s := SumReals(areas);
      var meanPx := s / n;
      assert meanPx * n == s;
      if meanPx < lo {
        ScaleStrict(lo, meanPx, n);
      }
      if meanPx > hi {
        ScaleStrict(meanPx, hi, n);
      }
      assert lo <= meanPx <= hi;
      assert MeanAreaMm2(areas).value == meanPx * Mm2PerPx2;
    }
  }

  /** Everything the grid screen reports. */
  datatype Report = Report(
    cells: seq<seq<nat>>,
    total: nat,
    expectedMin: int,
    expectedMax: int,
    estimated: int,
    meanAreaMm2: Option<real>)

  /** procesarImagen of the grid screen, from the measured contours of the crop to the report. */
  function Analyse(ms: seq<Metrics>): (r: Report)
    ensures IsGrid(r.cells)
    ensures GridSum(r.cells) == r.total
    ensures r.total <= |ms|
    ensures r.expectedMin <= r.total <= r.expectedMax
    ensures r.expectedMin <= r.estimated <= r.expectedMax
    ensures r.meanAreaMm2.None? <==> r.total == 0
    ensures r.meanAreaMm2.Some? ==> 3.0 * Mm2PerPx2 <= r.meanAreaMm2.value <= 70.0 * Mm2PerPx2
    ensures (forall k :: 0 <= k < |ms| ==> InsideCrop(ms[k].box)) ==> r.total == CountIf(ms, GridAccept)
    ensures forall i, j :: 0 <= i < GridSide && 0 <= j < GridSide ==> r.cells[i][j] == CountIf(ms, InCell(i, j))
    ensures r.total == CountIf(ms, Kept)
    ensures r.expectedMin == (9 * r.total + 5) / 10
    ensures r.expectedMax == (11 * r.total + 5) / 10
    ensures r.estimated == (40 * r.total + 19) / 38
    ensures r.meanAreaMm2 == MeanAreaMm2(Recorded(ms))
  {
    var areas := Recorded(ms);
    var total := |areas|;
    TallySum(ms);
    TallyAllCells(ms);
    BandIntegerForm(total);
    EstimateWithinBand(total);
    MeanAreaBounds(areas, 3.0, 70.0);
    AllInsideRecorded(ms);
    var mean := MeanAreaMm2(areas);
    Report(Tally(ms), total, ExpectedMin(total), ExpectedMax(total), Estimated(total), mean)
  }
}
