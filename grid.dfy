/** Grid planning: from the sheet's pixel size and the slicing options, the number
    of columns and rows and the pixel size of one cell (SliceSpriteSheets.cs:217-236). */
module GridPlanning {
  import opened Outcomes

  /** The two ways the editor lets a user describe the grid. */
  datatype SliceMode = CellCount | CellSize

  /** What the slicing pass derives: spritesPerRow, spritesPerColumn and the
      per-cell pixel size (spritePixelsPerUnitX/Y in the source). */
  datatype GridPlan = GridPlan(columns: int, rows: int, cellWidth: int, cellHeight: int)

  /** C#'s `/` on `int`: the quotient is truncated toward zero (Dafny's own `/`
      is Euclidean, which differs when exactly one operand is negative). */
  function CsDiv(a: int, b: int): (q: int)
    requires b != 0
    ensures a >= 0 && b > 0 ==> 0 <= q && q * b <= a < q * b + b
    ensures a >= 0 && b < 0 ==> q <= 0
    ensures a <= 0 && b > 0 ==> q <= 0
  {
    if a >= 0 && b > 0 then a / b
    else if a < 0 && b < 0 then (-a) / (-b)
    else if a < 0 then -((-a) / b)
    else -(a / (-b))
  }

  /** `q` is the number of whole `d`s in `n`: the largest q with q * d <= n. */
  predicate IsFloorQuotient(q: int, n: int, d: int)
  {
    0 <= q && q * d <= n < (q + 1) * d
  }

  /** The grid of one sheet of `width` x `height` pixels. In CellCount mode the
      counts are given and the cell size is the truncated quotient; in CellSize
      mode the size is given and the counts are the truncated quotients. A zero
      divisor is the one failure. */
  function PlanGrid(width: nat, height: nat, mode: SliceMode,
                    cellsPerRow: int, cellsPerColumn: int,
                    cellWidth: int, cellHeight: int): (r: Result<GridPlan>)
    ensures r.Failure? <==>
      (if mode == CellCount then cellsPerRow == 0 || cellsPerColumn == 0
       else cellWidth == 0 || cellHeight == 0)
    // CellCount: counts as given; each cell size is the largest one the counts fit into the sheet
    ensures r.Success? && mode == CellCount ==>
      && r.value.columns == cellsPerRow && r.value.rows == cellsPerColumn
      && (cellsPerRow > 0 ==> IsFloorQuotient(r.value.cellWidth, width, cellsPerRow))
      && (cellsPerColumn > 0 ==> IsFloorQuotient(r.value.cellHeight, height, cellsPerColumn))
    // CellSize: sizes as given; each count is the largest number of whole cells that fits
    ensures r.Success? && mode == CellSize ==>
      && r.value.cellWidth == cellWidth && r.value.cellHeight == cellHeight
      && (cellWidth > 0 ==> IsFloorQuotient(r.value.columns, width, cellWidth))
      && (cellHeight > 0 ==> IsFloorQuotient(r.value.rows, height, cellHeight))
      && (cellWidth < 0 ==> r.value.columns <= 0)
      && (cellHeight < 0 ==> r.value.rows <= 0)
  {
    if mode == CellCount then
      if cellsPerRow == 0 || cellsPerColumn == 0 then Failure(DivideByZero)
      else Success(GridPlan(cellsPerRow, cellsPerColumn,
                            CsDiv(width, cellsPerRow), CsDiv(height, cellsPerColumn)))
    else
      if cellWidth == 0 || cellHeight == 0 then Failure(DivideByZero)
      else Success(GridPlan(CsDiv(width, cellWidth), CsDiv(height, cellHeight),
                            cellWidth, cellHeight))
  }

  /** The retained grid region lies inside the sheet: along each axis that has at
      least one cell, the cells have a non-negative size and together they are no
      wider (higher) than the sheet. Remainder pixels are left out. */
  predicate Fits(g: GridPlan, width: nat, height: nat)
  {
    && (g.columns > 0 ==> 0 <= g.cellWidth && g.columns * g.cellWidth <= width)
    && (g.rows > 0 ==> 0 <= g.cellHeight && g.rows * g.cellHeight <= height)
  }

  /** Every plan the planner produces fits the sheet, in both modes and for any
      sign of the options. */
  lemma PlanFits(width: nat, height: nat, mode: SliceMode,
                 cellsPerRow: int, cellsPerColumn: int, cellWidth: int, cellHeight: int)
    requires PlanGrid(width, height, mode, cellsPerRow, cellsPerColumn, cellWidth, cellHeight).Success?
    ensures Fits(PlanGrid(width, height, mode, cellsPerRow, cellsPerColumn, cellWidth, cellHeight).value,
                 width, height)
  {
    var g := PlanGrid(width, height, mode, cellsPerRow, cellsPerColumn, cellWidth, cellHeight).value;
    if mode == CellSize {
      if g.columns > 0 {
        assert cellWidth > 0;
      }
      if g.rows > 0 {
        assert cellHeight > 0;
      }
    }
  }

  /** The two modes give the same grid when the counts are the quotients of the
      sizes and the sizes are in turn the quotients of the counts. */
  lemma ModesAgree(width: nat, height: nat, cellWidth: int, cellHeight: int)
    requires cellWidth > 0 && cellHeight > 0
    requires width / cellWidth > 0 && height / cellHeight > 0
    requires cellWidth == width / (width / cellWidth)
    requires cellHeight == height / (height / cellHeight)
    ensures PlanGrid(width, height, CellCount, width / cellWidth, height / cellHeight, 0, 0)
         == PlanGrid(width, height, CellSize, 0, 0, cellWidth, cellHeight)
    ensures PlanGrid(width, height, CellSize, 0, 0, cellWidth, cellHeight).Success?
  {
  }

  /** Without the second condition the modes differ: a 100-pixel-wide sheet cut
      into 30-pixel cells has 3 columns, but 3 columns give 33-pixel cells. */
  lemma ModesDifferWithoutRoundTrip()
    ensures PlanGrid(100, 30, CellSize, 0, 0, 30, 30) == Success(GridPlan(3, 1, 30, 30))
    ensures PlanGrid(100, 30, CellCount, 3, 1, 0, 0) == Success(GridPlan(3, 1, 33, 30))
  {
  }

  /** A 100 x 50 sheet cut into 32 x 32 cells: 3 columns (4 pixels dropped) and
      1 row (18 pixels dropped), so 3 candidate cells. */
  lemma CellSizeDropsPartialCells()
    ensures PlanGrid(100, 50, CellSize, 4, 4, 32, 32) == Success(GridPlan(3, 1, 32, 32))
    ensures 3 * 32 + 4 == 100 && 1 * 32 + 18 == 50
  {
  }
}
