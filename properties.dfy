/** What the slicing pass promises about its output: which cells it keeps, in
    which order, with which rectangles, names and pivots. */
module SliceProperties {
  import opened Outcomes
  import opened GridPlanning
  import opened SheetPixels
  import opened Pivots
  import opened Naming
  import opened Slicer

  predicate InGrid(g: GridPlan, c: Cell)
  {
    0 <= c.row < g.rows && 0 <= c.col < g.columns
  }

  /** Row-major order: lower rows first, and left to right within a row. */
  predicate Before(a: Cell, b: Cell)
  {
    a.row < b.row || (a.row == b.row && a.col < b.col)
  }

  predicate RowMajor(cs: seq<Cell>)
  {
    forall k, l :: 0 <= k < l < |cs| ==> Before(cs[k], cs[l])
  }

  /** The pixel (px, py) lies in the rectangle. */
  predicate Covers(r: Rect, px: int, py: int)
  {
    r.x <= px < r.x + r.width && r.y <= py < r.y + r.height
  }

  ghost predicate Disjoint(a: Rect, b: Rect)
  {
    forall px, py :: !(Covers(a, px, py) && Covers(b, px, py))
  }

  // ---- the kept cells ----

  lemma {:induction false} RowMembership(t: Texture, g: GridPlan, i: int, n: int, c: Cell)
    ensures c in RowCells(t, g, i, n) <==> c.row == i && 0 <= c.col < n && Visible(t, g, c)
    decreases n
  {
    if n > 0 {
      RowMembership(t, g, i, n - 1, c);
    }
  }

  lemma {:induction false} GridMembership(t: Texture, g: GridPlan, m: int, c: Cell)
    ensures c in GridCells(t, g, m) <==>
      0 <= c.row < m && 0 <= c.col < g.columns && Visible(t, g, c)
    decreases m
  {
    if m > 0 {
      GridMembership(t, g, m - 1, c);
      RowMembership(t, g, m - 1, g.columns, c);
    }
  }

  /** A cell is kept exactly when it is in the grid and not empty. */
  lemma KeptMembership(t: Texture, g: GridPlan, c: Cell)
    ensures c in KeptCells(t, g) <==> InGrid(g, c) && Visible(t, g, c)
  {
    GridMembership(t, g, g.rows, c);
  }

  lemma {:induction false} RowOrder(t: Texture, g: GridPlan, i: int, n: int)
    ensures RowMajor(RowCells(t, g, i, n))
    decreases n
  {
    if n > 0 {
      RowOrder(t, g, i, n - 1);
      var prev := RowCells(t, g, i, n - 1);
      forall k | 0 <= k < |prev| ensures Before(prev[k], Cell(i, n - 1)) {
        RowMembership(t, g, i, n - 1, prev[k]);
      }
    }
  }

  lemma {:induction false} GridOrder(t: Texture, g: GridPlan, m: int)
    ensures RowMajor(GridCells(t, g, m))
    decreases m
  {
    if m > 0 {
      GridOrder(t, g, m - 1);
      RowOrder(t, g, m - 1, g.columns);
      var lower := GridCells(t, g, m - 1);
      var top := RowCells(t, g, m - 1, g.columns);
      var all := lower + top;
      forall k, l | 0 <= k < l < |all| ensures Before(all[k], all[l]) {
        if l < |lower| {
          assert all[k] == lower[k] && all[l] == lower[l];
        } else if k >= |lower| {
          assert all[k] == top[k - |lower|] && all[l] == top[l - |lower|];
        } else {
          GridMembership(t, g, m - 1, lower[k]);
          RowMembership(t, g, m - 1, g.columns, top[l - |lower|]);
          assert all[k] == lower[k] && all[l] == top[l - |lower|];
        }
      }
    }
  }

  /** The kept cells come in row-major order (so none appears twice). */
  lemma KeptOrder(t: Texture, g: GridPlan)
    ensures RowMajor(KeptCells(t, g))
    ensures forall k, l :: 0 <= k < |KeptCells(t, g)| && 0 <= l < |KeptCells(t, g)| && k != l ==>
      KeptCells(t, g)[k] != KeptCells(t, g)[l]
  {
    GridOrder(t, g, g.rows);
  }

  // ---- the output of one pass ----

  /** The output has one descriptor per kept cell, in the cells' order. */
  lemma SliceOutput(t: Texture, base: string, s: SliceSettings)
    requires Plan(t, s).Success?
    ensures var g := Plan(t, s).value;
      var kept := KeptCells(t, g);
      var out := Sliced(t, base, s);
      && out.Success? && |out.value| == |kept|
      && (forall k :: 0 <= k < |kept| ==> out.value[k] == Describe(g, base, s, kept[k]))
      && (forall c :: c in kept <==> InGrid(g, c) && Visible(t, g, c))
      && RowMajor(kept)
  {
    var g := Plan(t, s).value;
    forall c ensures c in KeptCells(t, g) <==> InGrid(g, c) && Visible(t, g, c) {
      KeptMembership(t, g, c);
    }
    KeptOrder(t, g);
  }

  lemma MulGap(a: int, b: int, c: int)
    requires a < b && 0 <= c
    ensures a * c + c <= b * c
  {
    assert (b - a - 1) * c >= 0;
  }

  /** In a grid row, the index grows along the row-major order. */
  lemma IndexOrder(g: GridPlan, a: Cell, b: Cell)
    requires Before(a, b) && 0 <= a.col < g.columns && 0 <= b.col < g.columns
    ensures CellIndex(g, a) < CellIndex(g, b)
  {
    if a.row < b.row {
      MulGap(a.row, b.row, g.columns);
    }
  }

  lemma IndexRange(g: GridPlan, c: Cell)
    requires InGrid(g, c)
    ensures 0 <= CellIndex(g, c) < g.rows * g.columns
  {
    MulStep(c.row, g.rows, g.columns);
  }

  /** Name indices are the grid's row-major indices (not output positions):
      they increase strictly along the output, lie in [0, rows * columns), and
      the index of a dropped cell is skipped, not reused. */
  lemma NameIndices(t: Texture, base: string, s: SliceSettings)
    requires Plan(t, s).Success?
    ensures var g := Plan(t, s).value;
      var kept := KeptCells(t, g);
      var out := Sliced(t, base, s).value;
      && (forall k :: 0 <= k < |out| ==>
            0 <= CellIndex(g, kept[k]) < g.rows * g.columns &&
            out[k].name == SpriteName(base, CellIndex(g, kept[k])))
      && (forall k, l :: 0 <= k < l < |out| ==> CellIndex(g, kept[k]) < CellIndex(g, kept[l]))
  {
    var g := Plan(t, s).value;
    var kept := KeptCells(t, g);
    SliceOutput(t, base, s);
    forall k | 0 <= k < |kept| ensures 0 <= CellIndex(g, kept[k]) < g.rows * g.columns {
      KeptMembership(t, g, kept[k]);
      IndexRange(g, kept[k]);
    }
    forall k, l | 0 <= k < l < |kept| ensures CellIndex(g, kept[k]) < CellIndex(g, kept[l]) {
      KeptMembership(t, g, kept[k]);
      KeptMembership(t, g, kept[l]);
      IndexOrder(g, kept[k], kept[l]);
    }
  }

  /** No two descriptors of one sheet share a name. */
  lemma NamesUnique(t: Texture, base: string, s: SliceSettings)
    requires Plan(t, s).Success?
    ensures var out := Sliced(t, base, s).value;
      forall k, l :: 0 <= k < |out| && 0 <= l < |out| && k != l ==> out[k].name != out[l].name
  {
    var g := Plan(t, s).value;
    var kept := KeptCells(t, g);
    var out := Sliced(t, base, s).value;
    NameIndices(t, base, s);
    forall k, l | 0 <= k < |out| && 0 <= l < |out| && k != l ensures out[k].name != out[l].name {
      var a, b := CellIndex(g, kept[k]), CellIndex(g, kept[l]);
      var n := |base| + 1;
      assert DecimalValue(out[k].name[n..]) == a != b == DecimalValue(out[l].name[n..]);
    }
  }

  /** Every descriptor's rectangle is its cell's, and lies inside the sheet:
      the host's block read is never asked for pixels outside the sheet. */
  lemma RectsInSheet(t: Texture, base: string, s: SliceSettings)
    requires Plan(t, s).Success?
    ensures var g := Plan(t, s).value;
      var kept := KeptCells(t, g);
      var out := Sliced(t, base, s).value;
      forall k :: 0 <= k < |out| ==>
        && out[k].rect == Rect(kept[k].col * g.cellWidth, kept[k].row * g.cellHeight,
                               g.cellWidth, g.cellHeight)
        && InSheet(t, out[k].rect.x, out[k].rect.y, out[k].rect.width, out[k].rect.height)
  {
    var g := Plan(t, s).value;
    var kept := KeptCells(t, g);
    SliceOutput(t, base, s);
    PlanFits(t.width, t.height, s.mode, s.cellsPerRow, s.cellsPerColumn, s.cellWidth, s.cellHeight);
    forall k | 0 <= k < |kept|
      ensures InSheet(t, kept[k].col * g.cellWidth, kept[k].row * g.cellHeight, g.cellWidth, g.cellHeight)
    {
      KeptMembership(t, g, kept[k]);
      CellInSheet(t, g, kept[k].row, kept[k].col);
    }
  }

  /** A kept cell has a positive width and height. */
  lemma VisibleHasArea(t: Texture, g: GridPlan, c: Cell)
    requires Visible(t, g, c)
    ensures g.cellWidth > 0 && g.cellHeight > 0
  {
    if g.cellWidth <= 0 || g.cellHeight <= 0 {
      EmptyBlockIsClear(t, c.col * g.cellWidth, c.row * g.cellHeight, g.cellWidth, g.cellHeight);
    }
  }

  /** Rectangles of two different non-empty cells share no pixel. */
  lemma CellsDisjoint(t: Texture, g: GridPlan, a: Cell, b: Cell)
    requires Visible(t, g, a) && a != b
    ensures Disjoint(CellRect(g, a), CellRect(g, b))
  {
    VisibleHasArea(t, g, a);
    var w, h := g.cellWidth, g.cellHeight;
    forall px, py ensures !(Covers(CellRect(g, a), px, py) && Covers(CellRect(g, b), px, py)) {
      if Covers(CellRect(g, a), px, py) && Covers(CellRect(g, b), px, py) {
        if a.col < b.col {
          MulGap(a.col, b.col, w);
        } else if b.col < a.col {
          MulGap(b.col, a.col, w);
        } else if a.row < b.row {
          MulGap(a.row, b.row, h);
        } else if b.row < a.row {
          MulGap(b.row, a.row, h);
        }
      }
    }
  }

  /** Different descriptors of one sheet have disjoint rectangles. */
  lemma RectsDisjoint(t: Texture, base: string, s: SliceSettings)
    requires Plan(t, s).Success?
    ensures var out := Sliced(t, base, s).value;
      forall k, l :: 0 <= k < |out| && 0 <= l < |out| && k != l ==> Disjoint(out[k].rect, out[l].rect)
  {
    var g := Plan(t, s).value;
    var kept := KeptCells(t, g);
    SliceOutput(t, base, s);
    KeptOrder(t, g);
    forall k, l | 0 <= k < |kept| && 0 <= l < |kept| && k != l
      ensures Disjoint(CellRect(g, kept[k]), CellRect(g, kept[l]))
    {
      KeptMembership(t, g, kept[k]);
      CellsDisjoint(t, g, kept[k], kept[l]);
    }
  }

  /** The cells tile the retained region [0, columns*cellWidth) x
      [0, rows*cellHeight): each of its pixels lies in the cell whose column and
      row are the pixel's coordinates divided by the cell size. */
  lemma CellOfPixel(g: GridPlan, px: int, py: int)
    requires g.cellWidth > 0 && g.cellHeight > 0
    requires 0 <= px < g.columns * g.cellWidth && 0 <= py < g.rows * g.cellHeight
    ensures InGrid(g, Cell(py / g.cellHeight, px / g.cellWidth))
    ensures Covers(CellRect(g, Cell(py / g.cellHeight, px / g.cellWidth)), px, py)
  {
    AxisCell(px, g.cellWidth, g.columns);
    AxisCell(py, g.cellHeight, g.rows);
  }

  /** Along one axis: a coordinate in [0, n*c) lies in cell p / c, one of the n cells. */
  lemma AxisCell(p: int, c: int, n: int)
    requires c > 0 && 0 <= p < n * c
    ensures 0 <= p / c < n && (p / c) * c <= p < (p / c) * c + c
  {
    var q := p / c;
    assert p == q * c + p % c && 0 <= p % c < c;
    assert q >= 0 by {
      if q < 0 {
        MulGap(q, 0, c);
      }
    }
    assert q < n by {
      if q >= n {
        assert q * c >= n * c by {
          if q > n {
            MulGap(n, q, c);
          }
        }
      }
    }
  }

  /** Dropping empty cells loses no opaque pixel of the retained region: every
      such pixel lies in the rectangle of some descriptor. */
  lemma OpaquePixelDescribed(t: Texture, base: string, s: SliceSettings, px: int, py: int)
    requires Plan(t, s).Success?
    requires Plan(t, s).value.cellWidth > 0 && Plan(t, s).value.cellHeight > 0
    requires 0 <= px < Plan(t, s).value.columns * Plan(t, s).value.cellWidth
    requires 0 <= py < Plan(t, s).value.rows * Plan(t, s).value.cellHeight
    requires AlphaAt(t, px, py) > 0
    ensures var out := Sliced(t, base, s).value;
      exists k :: 0 <= k < |out| && Covers(out[k].rect, px, py)
  {
    var g := Plan(t, s).value;
    var kept := KeptCells(t, g);
    var c := Cell(py / g.cellHeight, px / g.cellWidth);
    CellOfPixel(g, px, py);
    OnePixelDecides(t, c.col * g.cellWidth, c.row * g.cellHeight, g.cellWidth, g.cellHeight, px, py);
    KeptMembership(t, g, c);
    SliceOutput(t, base, s);
    var k :| 0 <= k < |kept| && kept[k] == c;
    assert Sliced(t, base, s).value[k].rect == CellRect(g, c);
  }

  /** Alignment, pivot and border of every descriptor: with the Custom preset the
      alignment is Custom and the pivot the window's pivot; otherwise the
      alignment is GetPivotAlignment's and the pivot the record's default; the
      border is always zero. */
  lemma PivotsAndBorders(t: Texture, base: string, s: SliceSettings)
    requires Plan(t, s).Success?
    ensures var out := Sliced(t, base, s).value;
      forall k :: 0 <= k < |out| ==>
        && out[k].border == Border(0.0, 0.0, 0.0, 0.0)
        && (s.selectedPivotPreset == CustomPresetIndex() ==> out[k].alignment == Custom && out[k].pivot == s.pivotPosition)
        && (s.selectedPivotPreset != CustomPresetIndex() ==>
              out[k].alignment == GetPivotAlignment(s.selectedPivotPreset) &&
              out[k].alignment != Custom && out[k].pivot == Vec2(0.0, 0.0))
  {
    SliceOutput(t, base, s);
  }

  // ---- a fully opaque sheet ----

  predicate Opaque(t: Texture)
  {
    forall y, x :: 0 <= y < t.height && 0 <= x < t.width ==> AlphaAt(t, x, y) > 0
  }

  lemma OpaqueCellVisible(t: Texture, g: GridPlan, c: Cell)
    requires t.Valid() && Opaque(t) && Fits(g, t.width, t.height) && InGrid(g, c)
    requires g.cellWidth > 0 && g.cellHeight > 0
    ensures Visible(t, g, c)
  {
    CellInSheet(t, g, c.row, c.col);
    OnePixelDecides(t, c.col * g.cellWidth, c.row * g.cellHeight, g.cellWidth, g.cellHeight,
                    c.col * g.cellWidth, c.row * g.cellHeight);
  }

  lemma {:induction false} OpaqueRowCount(t: Texture, g: GridPlan, i: int, n: int)
    requires t.Valid() && Opaque(t) && Fits(g, t.width, t.height)
    requires g.cellWidth > 0 && g.cellHeight > 0 && 0 <= i < g.rows && 0 <= n <= g.columns
    ensures |RowCells(t, g, i, n)| == n
    decreases n
  {
    if n > 0 {
      OpaqueRowCount(t, g, i, n - 1);
      OpaqueCellVisible(t, g, Cell(i, n - 1));
    }
  }

  lemma {:induction false} OpaqueGridCount(t: Texture, g: GridPlan, m: int)
    requires t.Valid() && Opaque(t) && Fits(g, t.width, t.height)
    requires g.cellWidth > 0 && g.cellHeight > 0 && g.columns >= 0 && 0 <= m <= g.rows
    ensures |GridCells(t, g, m)| == m * g.columns
    decreases m
  {
    if m > 0 {
      OpaqueGridCount(t, g, m - 1);
      OpaqueRowCount(t, g, m - 1, g.columns);
      assert GridCells(t, g, m) == GridCells(t, g, m - 1) + RowCells(t, g, m - 1, g.columns);
      assert (m - 1) * g.columns + g.columns == m * g.columns;
    }
  }

  /** A strictly increasing sequence of n indices drawn from [0, n) is 0, 1, ..., n-1. */
  lemma {:induction false} IncreasingFill(s: seq<int>, n: nat)
    requires |s| == n
    requires forall k :: 0 <= k < n ==> 0 <= s[k] < n
    requires forall k, l :: 0 <= k < l < n ==> s[k] < s[l]
    ensures forall k :: 0 <= k < n ==> s[k] == k
  {
    forall k | 0 <= k < n ensures s[k] == k {
      AtLeastPosition(s, k);
      AtMostPosition(s, n, k);
    }
  }

  lemma {:induction false} AtLeastPosition(s: seq<int>, k: nat)
    requires k < |s| && 0 <= s[0]
    requires forall a, b :: 0 <= a < b < |s| ==> s[a] < s[b]
    ensures s[k] >= k
  {
    if k > 0 {
      AtLeastPosition(s, k - 1);
    }
  }

  lemma {:induction false} AtMostPosition(s: seq<int>, n: nat, k: nat)
    requires k < |s| == n && s[n - 1] < n
    requires forall a, b :: 0 <= a < b < |s| ==> s[a] < s[b]
    ensures s[k] <= k
    decreases n - k
  {
    if k < n - 1 {
      AtMostPosition(s, n, k + 1);
    }
  }

  /** A fully opaque sheet whose cells have positive size gives one descriptor
      per grid cell, named base_0 up to base_{rows*columns-1} in output order. */
  lemma OpaqueSheetKeepsAll(t: Texture, base: string, s: SliceSettings)
    requires t.Valid() && Opaque(t) && Plan(t, s).Success?
    requires Plan(t, s).value.cellWidth > 0 && Plan(t, s).value.cellHeight > 0
    requires Plan(t, s).value.rows >= 0 && Plan(t, s).value.columns >= 0
    ensures var g := Plan(t, s).value;
      var out := Sliced(t, base, s).value;
      && |out| == g.rows * g.columns
      && forall k :: 0 <= k < |out| ==> out[k].name == SpriteName(base, k)
  {
    var g := Plan(t, s).value;
    var kept := KeptCells(t, g);
    PlanFits(t.width, t.height, s.mode, s.cellsPerRow, s.cellsPerColumn, s.cellWidth, s.cellHeight);
    OpaqueGridCount(t, g, g.rows);
    NameIndices(t, base, s);
    SliceOutput(t, base, s);
    var out := Sliced(t, base, s).value;
    var idx := seq(|kept|, k requires 0 <= k < |kept| => CellIndex(g, kept[k]));
    assert forall k :: 0 <= k < |kept| ==> 0 <= idx[k] < |kept|;
    assert forall k, l :: 0 <= k < l < |kept| ==> idx[k] < idx[l];
    IncreasingFill(idx, |kept|);
    forall k | 0 <= k < |out| ensures out[k].name == SpriteName(base, k) {
      assert idx[k] == k;
    }
  }
}
