/** The slicing pass of one sheet (SliceSpriteSheets.cs:217-267): plan the grid,
    visit the cells row by row, drop the empty ones and describe the others. */
module Slicer {
  import opened Outcomes
  import opened GridPlanning
  import opened SheetPixels
  import opened Pivots
  import opened Naming

  /** The window's slicing options at the moment the pass runs. */
  datatype SliceSettings = SliceSettings(
    mode: SliceMode,
    cellsPerRow: int, cellsPerColumn: int,
    cellWidth: int, cellHeight: int,
    selectedPivotPreset: int,
    pivotPosition: Vec2)

  datatype Rect = Rect(x: int, y: int, width: int, height: int)

  /** Sprite border in pixels: left, bottom, right, top. */
  datatype Border = Border(left: real, bottom: real, right: real, top: real)

  /** One sprite description handed to the importer (SpriteMetaData). */
  datatype SpriteMeta = SpriteMeta(
    rect: Rect, name: string, alignment: Alignment, pivot: Vec2, border: Border)

  /** A grid position: row i (0 at the bottom) and column j (0 at the left). */
  datatype Cell = Cell(row: int, col: int)

  function Plan(t: Texture, s: SliceSettings): Result<GridPlan>
  {
    PlanGrid(t.width, t.height, s.mode, s.cellsPerRow, s.cellsPerColumn, s.cellWidth, s.cellHeight)
  }

  function CellRect(g: GridPlan, c: Cell): Rect
  {
    Rect(c.col * g.cellWidth, c.row * g.cellHeight, g.cellWidth, g.cellHeight)
  }

  /** The row-major index that names the sprite of a cell. */
  function CellIndex(g: GridPlan, c: Cell): int
  {
    c.row * g.columns + c.col
  }

  ghost predicate Visible(t: Texture, g: GridPlan, c: Cell)
  {
    !CellClear(t, c.col * g.cellWidth, c.row * g.cellHeight, g.cellWidth, g.cellHeight)
  }

  /** The descriptor written for a kept cell. The pivot is set only for the
      Custom preset; otherwise it keeps the record's default (0, 0). */
  function Describe(g: GridPlan, base: string, s: SliceSettings, c: Cell): (d: SpriteMeta)
    ensures (d.alignment == Custom) <==> s.selectedPivotPreset == CustomPresetIndex()
    ensures d.alignment == Custom ==> d.pivot == s.pivotPosition
    ensures d.alignment != Custom ==> d.pivot == Vec2(0.0, 0.0)
    ensures d.rect.width == g.cellWidth && d.rect.height == g.cellHeight
    ensures d.border == Border(0.0, 0.0, 0.0, 0.0)
  {
    var custom := s.selectedPivotPreset == CustomPresetIndex();
    SpriteMeta(
      CellRect(g, c),
      SpriteName(base, CellIndex(g, c)),
      if custom then Custom else GetPivotAlignment(s.selectedPivotPreset),
      if custom then s.pivotPosition else Vec2(0.0, 0.0),
      Border(0.0, 0.0, 0.0, 0.0))
  }

  /** The cells of row i among columns [0, n) that are not empty, left to right. */
  ghost function RowCells(t: Texture, g: GridPlan, i: int, n: int): seq<Cell>
    decreases n
  {
    if n <= 0 then []
    else RowCells(t, g, i, n - 1) + (if Visible(t, g, Cell(i, n - 1)) then [Cell(i, n - 1)] else [])
  }

  /** The non-empty cells of rows [0, m), in row-major order. */
  ghost function GridCells(t: Texture, g: GridPlan, m: int): seq<Cell>
    decreases m
  {
    if m <= 0 then [] else GridCells(t, g, m - 1) + RowCells(t, g, m - 1, g.columns)
  }

  /** The non-empty cells of the whole grid, in row-major order. */
  ghost function KeptCells(t: Texture, g: GridPlan): seq<Cell>
  {
    GridCells(t, g, g.rows)
  }

  function Render(g: GridPlan, base: string, s: SliceSettings, cells: seq<Cell>): (r: seq<SpriteMeta>)
    ensures |r| == |cells|
  {
    seq(|cells|, k requires 0 <= k < |cells| => Describe(g, base, s, cells[k]))
  }

  /** What the slicing pass produces for sheet `t` named `base`. */
  ghost function Sliced(t: Texture, base: string, s: SliceSettings): Result<seq<SpriteMeta>>
  {
    match Plan(t, s)
    case Failure(e) => Failure(e)
    case Success(g) => Success(Render(g, base, s, KeptCells(t, g)))
  }

  lemma RenderSnoc(g: GridPlan, base: string, s: SliceSettings, cells: seq<Cell>, c: Cell)
    ensures Render(g, base, s, cells + [c]) == Render(g, base, s, cells) + [Describe(g, base, s, c)]
  {
  }

  /** Cell (i, j) of a plan that fits the sheet lies inside the sheet. */
  lemma CellInSheet(t: Texture, g: GridPlan, i: int, j: int)
    requires Fits(g, t.width, t.height)
    requires 0 <= i < g.rows && 0 <= j < g.columns
    ensures InSheet(t, j * g.cellWidth, i * g.cellHeight, g.cellWidth, g.cellHeight)
  {
    MulStep(j, g.columns, g.cellWidth);
    MulStep(i, g.rows, g.cellHeight);
  }

  /** k < n and 0 <= c imply 0 <= k * c and k * c + c <= n * c. */
  lemma MulStep(k: int, n: int, c: int)
    requires 0 <= k < n && 0 <= c
    ensures 0 <= k * c && k * c + c <= n * c
  {
    assert (k + 1) * c <= n * c by {
      assert (n - (k + 1)) * c >= 0;
    }
  }

  /** The slicing pass: rows bottom to top, and in each row the cells left to
      right; an empty cell is skipped, every other one gets a descriptor. */
  method SliceSheet(t: Texture, base: string, s: SliceSettings)
    returns (r: Result<seq<SpriteMeta>>)
    requires t.Valid()
    ensures r == Sliced(t, base, s)
  {
    var plan := Plan(t, s);
    if plan.Failure? {
      return Failure(plan.error);
    }
    var g := plan.value;
    PlanFits(t.width, t.height, s.mode, s.cellsPerRow, s.cellsPerColumn, s.cellWidth, s.cellHeight);
    var spriteData: seq<SpriteMeta> := [];
    var i := 0;
    while i < g.rows
      invariant 0 <= i && (i <= g.rows || i == 0)
      invariant spriteData == Render(g, base, s, GridCells(t, g, i))
    {
      var j := 0;
      while j < g.columns
        invariant 0 <= j && (j <= g.columns || j == 0)
        invariant spriteData == Render(g, base, s, GridCells(t, g, i) + RowCells(t, g, i, j))
      {
        CellInSheet(t, g, i, j);
        var empty := IsCellEmpty(t, j * g.cellWidth, i * g.cellHeight, g.cellWidth, g.cellHeight);
        ghost var before := GridCells(t, g, i) + RowCells(t, g, i, j);
        if !empty {
          RenderSnoc(g, base, s, before, Cell(i, j));
          assert before + [Cell(i, j)] == GridCells(t, g, i) + RowCells(t, g, i, j + 1);
          spriteData := spriteData + [Describe(g, base, s, Cell(i, j))];
        } else {
          assert before == GridCells(t, g, i) + RowCells(t, g, i, j + 1);
        }
        j := j + 1;
      }
      assert RowCells(t, g, i, j) == RowCells(t, g, i, g.columns);
      i := i + 1;
    }
    assert GridCells(t, g, i) == KeptCells(t, g);
    return Success(spriteData);
  }
}
