# Sprite sheet slicer: a verified model of the slicing pass

This project models the grid-slicing pass of the MultiSpriteSheetSlicer editor
tool (`SliceSpriteSheets.cs`) and proves what it promises. For one sprite sheet,
the pass does four things:

- It plans a grid from the sheet's pixel size. In CellCount mode the counts are
  given. In CellSize mode the cell size is given. The missing values are
  truncated integer quotients.
- It visits the cells row by row, bottom row first, each row left to right.
- It drops every cell whose pixels all have alpha 0 (`IsCellEmpty`).
- For each remaining cell it appends a descriptor (`SpriteMetaData`) to the
  output list. The descriptor holds the cell's rectangle, the name
  `{sheet}_{row*columns+col}`, the alignment and pivot chosen by the pivot
  preset, and a zero border.

Modules, one per component:

- `Outcomes` (outcomes.dfy): the result type and the one failure, a zero divisor.
- `GridPlanning` (grid.dfy): C# truncating division, the grid planner, and "the
  plan fits the sheet".
- `SheetPixels` (pixels.dfy): the read-only alpha grid, the host's block read,
  and the `IsCellEmpty` scan as a method with a loop.
- `Pivots` (pivot.dfy): the preset list, the options panel's preset-to-pivot
  table, and `GetPivotAlignment`.
- `Naming` (naming.dfy): decimal rendering of the name index, with a parse
  round trip that makes names injective.
- `Slicer` (slicer.dfy): the nested slicing loop as a method (`SliceSheet`),
  proved equal to the specification function `Sliced`.
- `SliceProperties` (properties.dfy): the lemmas about `Sliced`.
- `SliceScenarios` (scenarios.dfy): worked sheets.

The sheet is a value, `Texture(width, height, alpha)`, with `alpha[y][x]` and
row 0 at the bottom, as in the host's pixel coordinates. Alpha is an integer,
and "opaque" means alpha > 0. Pivot coordinates are exact `real`s. The sheet's
base name is an input string.

Behaviour worth noting:

- A resolved cell size of 0 is not rejected. In CellCount mode with more cells
  than pixels, every cell has zero area and reads no pixels, so it counts as
  empty. The output is then an empty list. Only a zero divisor fails.
- For a non-Custom preset the code never sets the descriptor's pivot. It keeps
  the record's default (0, 0), and the alignment tag alone carries the anchor.
- `pivotUnitMode` is never read by the slicing pass, so no pixel-to-normalised
  pivot conversion takes place.
- Row 0 is the bottom row, so name index 2 of a 2 x 2 grid is the top-left
  cell. `SliceScenarios.DroppedCellLeavesGap` drops that cell and gets the names
  sheet_0, sheet_1, sheet_3.

## Model

| member | source | states |
|---|---|---|
| `GridPlanning.CsDiv` | SliceSpriteSheets.cs:227-228 | C# integer division truncates toward zero: for a non-negative dividend and positive divisor the quotient is the floor; with a negative divisor it is at most 0 |
| `GridPlanning.PlanGrid` | SliceSpriteSheets.cs:217-236 | fails exactly when the mode's divisor is 0; CellCount keeps the counts and each cell size is the largest that fits that many times; CellSize keeps the size and each count is the largest number of whole cells that fits; a negative size gives no cells |
| `GridPlanning.PlanFits` | SliceSpriteSheets.cs:223-236 | every successful plan, in both modes, fits the sheet: along an axis with cells, the size is non-negative and columns x cellWidth <= width (rows x cellHeight <= height); remainder pixels are excluded |
| `GridPlanning.ModesAgree` | SliceSpriteSheets.cs:223-236 | CellCount with counts W/cw, H/ch gives the same grid as CellSize with cw, ch when cw = W/(W/cw) and ch = H/(H/ch) |
| `GridPlanning.ModesDifferWithoutRoundTrip` | SliceSpriteSheets.cs:223-236 | without that condition the modes differ: a width of 100 in 30-pixel cells gives 3 columns, but 3 columns give 33-pixel cells |
| `GridPlanning.CellSizeDropsPartialCells` | SliceSpriteSheets.cs:230-236 | a 100 x 50 sheet in 32 x 32 cells has 3 columns and 1 row; the partial trailing column and row are dropped |
| `SheetPixels.PixelsClear` | SliceSpriteSheets.cs:288 | the block read holds no opaque value exactly when no pixel of the rectangle [x,x+w) x [y,y+h) is opaque |
| `SheetPixels.IsCellEmpty` | SliceSpriteSheets.cs:286-297 | returns true iff no pixel in [x,x+w) x [y,y+h) has alpha > 0 |
| `SheetPixels.OnePixelDecides` | SliceSpriteSheets.cs:289-294 | one opaque pixel anywhere in the rectangle makes the cell non-empty |
| `SheetPixels.EmptyBlockIsClear` | SliceSpriteSheets.cs:288-296 | a rectangle of zero width or height is always empty |
| `Pivots.CustomPresetIndex` | SliceSpriteSheets.cs:20-32 | the last preset index names "Custom", and no other index does |
| `Pivots.GetPivotAlignment` | SliceSpriteSheets.cs:299-324 | never yields Custom; any index outside 0..8 yields Center |
| `Pivots.AlignmentsDistinct` | SliceSpriteSheets.cs:301-320 | indices 0..8 map to nine pairwise different alignments |
| `Pivots.AlignmentsCovered` | SliceSpriteSheets.cs:301-320 | every named alignment is reached by some preset index in 0..8 |
| `Pivots.TablesAgree` | SliceSpriteSheets.cs:94-127 | for each named preset, the panel's pivot is the anchor point of the alignment the slicer writes (Center (.5,.5), Top (.5,1), Top Left (0,1), ..., Bottom Right (1,0)); for Custom it is the typed value |
| `Pivots.PresetPivot` | SliceSpriteSheets.cs:94-127 | the panel's table: "Custom" takes the typed value, a name outside the preset list leaves the pivot unchanged, and every other listed preset sets a point of the unit square |
| `Pivots.PresetPivotInUnitSquare` | SliceSpriteSheets.cs:94-121 | every named preset's pivot lies in the unit square |
| `Naming.Decimal` | SliceSpriteSheets.cs:251 | the rendered index is a non-empty digit string without leading zeros |
| `Naming.DecimalRoundTrip` | SliceSpriteSheets.cs:251 | reading the rendered index back gives the index |
| `Naming.DecimalInjective` | SliceSpriteSheets.cs:251 | different indices render differently |
| `Naming.IntText` | SliceSpriteSheets.cs:251 | a non-negative number renders as digits that read back as the number; a negative one as "-" followed by digits that read back as its magnitude |
| `Naming.SpriteName` | SliceSpriteSheets.cs:251 | the name is the sheet name, "_", and (for a non-negative index) digits that read back as the index |
| `Naming.SpriteNameInjective` | SliceSpriteSheets.cs:251 | on one sheet, different non-negative indices give different names |
| `Slicer.CellInSheet` | SliceSpriteSheets.cs:244 | each cell of a fitting plan lies inside the sheet, so the block read is never asked for pixels outside it |
| `Slicer.Describe` | SliceSpriteSheets.cs:249-263 | the record for one cell: alignment Custom exactly for the Custom preset, with the window's pivot; otherwise the default pivot (0,0); the cell's width and height; a zero border |
| `Slicer.SliceSheet` | SliceSpriteSheets.cs:217-267 | the nested row-major loop with its skip of empty cells returns exactly `Sliced`: Failure when the plan fails, else the descriptors of the kept cells in row-major order |
| `SliceProperties.KeptMembership` | SliceSpriteSheets.cs:240-247 | a cell is kept iff it lies in the grid (row < rows, col < columns) and is non-empty |
| `SliceProperties.KeptOrder` | SliceSpriteSheets.cs:240-242 | kept cells are in row-major order (row ascending outer, column ascending inner), so no cell appears twice |
| `SliceProperties.SliceOutput` | SliceSpriteSheets.cs:240-267 | the output has one descriptor per kept cell, in that order; a cell is kept iff it is in the grid and non-empty |
| `SliceProperties.IndexOrder` | SliceSpriteSheets.cs:251 | row-major order of cells is strictly increasing order of their indices row*columns+col |
| `SliceProperties.IndexRange` | SliceSpriteSheets.cs:251 | a grid cell's index lies in [0, rows*columns) |
| `SliceProperties.NameIndices` | SliceSpriteSheets.cs:251 | each descriptor is named after its cell's grid index, not its output position; indices lie in [0, rows*columns) and strictly increase along the output, so dropped indices are skipped |
| `SliceProperties.NamesUnique` | SliceSpriteSheets.cs:251 | no two descriptors of one sheet share a name |
| `SliceProperties.RectsInSheet` | SliceSpriteSheets.cs:244-250 | each descriptor's rect is (col*cellWidth, row*cellHeight, cellWidth, cellHeight) and lies inside the sheet |
| `SliceProperties.VisibleHasArea` | SliceSpriteSheets.cs:244-247 | a kept cell has positive width and height |
| `SliceProperties.CellsDisjoint` | SliceSpriteSheets.cs:250 | the rects of two different non-empty cells share no pixel |
| `SliceProperties.RectsDisjoint` | SliceSpriteSheets.cs:250 | different descriptors of one sheet have disjoint rects |
| `SliceProperties.CellOfPixel` | SliceSpriteSheets.cs:240-250 | the cells tile the retained region: each pixel of [0, columns*cellWidth) x [0, rows*cellHeight) lies in the grid cell (py / cellHeight, px / cellWidth) |
| `SliceProperties.OpaquePixelDescribed` | SliceSpriteSheets.cs:240-265 | dropping empty cells loses no opaque pixel: every opaque pixel of the retained region lies in some descriptor's rect |
| `SliceProperties.PivotsAndBorders` | SliceSpriteSheets.cs:253-263 | the Custom preset gives alignment Custom and the window's pivot; any other preset gives GetPivotAlignment's tag (never Custom) and the default pivot (0,0); the border is always zero |
| `SliceProperties.OpaqueSheetKeepsAll` | SliceSpriteSheets.cs:240-267 | a fully opaque sheet with positive cell size gives rows*columns descriptors, the k-th named {sheet}_k |
| `SliceScenarios.TwoByTwoPlan` | SliceSpriteSheets.cs:223-229 | a 64 x 64 sheet in CellCount 2 x 2 has four 32 x 32 cells |
| `SliceScenarios.DroppedCellLeavesGap` | SliceSpriteSheets.cs:240-267 | with the top-left cell of a 2 x 2 grid transparent, the output is sheet_0, sheet_1, sheet_3 with their rects; index 2 is skipped |

## Left out

- Editor plumbing is not modelled: `ShowWindow`, `OnEnable`/`OnDisable`, the widget drawing in `OnGUI` and `UpdateAutoRefresh`. These are UI, event subscription, and wall-clock timing with a float interval. The one exception is the preset-to-pivot table, which is `Pivots.PresetPivot`.
- Sheet selection is not modelled: `RefreshSelectedSpriteSheets` and `IsValidSpriteSheet` do asset-database and file-system lookups.
- The per-sheet `foreach` and the importer null check (SliceSpriteSheets.cs:210-215) are host glue. The model slices one sheet. In the code, an exception on one sheet also ends the whole batch.
- The import sink is not modelled: assigning `importer.spritesheet`, the pixels-per-unit save and restore, both `ImportAsset` calls, and `AssetDatabase.Refresh` (SliceSpriteSheets.cs:269-283). These are foreign calls. The model stops at the descriptor list.
- `Texture2D.GetPixels` and float `Color` are not modelled. Alpha is an integer, and the model's block read returns the block bottom row first, each row left to right. A zero-area block reads as no pixels. Out-of-range reads cannot happen: `Slicer.CellInSheet` proves every read is in range.
- `Path.GetFileNameWithoutExtension` is not modelled: the base name is an input.
- Alignment tags are a datatype. The integer codes of the host's `SpriteAlignment` enum (the `(int)` casts) are not modelled.
- `Vector2`/`Vector4` floats are modelled as exact reals. The code only stores them.
- The 32-bit `int` of C# is not modelled. Products such as `j * cellWidth` and `i * spritesPerRow + j` use unbounded integers. For sheets of real size they stay far below 2^31.
- `pivotUnitMode` is not modelled: no slicing code reads it.
- The lookup `pivotPresets[selectedPivotPreset]` (SliceSpriteSheets.cs:94) needs an index inside the list, which the drop-down guarantees. `Pivots.TablesAgree` and `Pivots.PresetPivotInUnitSquare` take that bound as their precondition; `Pivots.PresetPivot` itself takes a name and has none.
- The descriptor's `Rect` is built from ints converted to floats (SliceSpriteSheets.cs:250). The model keeps the ints. The conversion is exact for sheet-sized values, which are far below 2^24.
