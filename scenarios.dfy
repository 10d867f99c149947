/** Worked sheets: concrete grids and outputs that follow from the model. */
module SliceScenarios {
  import opened Outcomes
  import opened GridPlanning
  import opened SheetPixels
  import opened Pivots
  import opened Naming
  import opened Slicer

  /** A 64 x 64 sheet in CellCount mode 2 x 2 has four 32 x 32 cells. */
  lemma TwoByTwoPlan()
    ensures PlanGrid(64, 64, CellCount, 2, 2, 32, 32) == Success(GridPlan(2, 2, 32, 32))
  {
  }

  /** A 2 x 2 sheet cut into 2 x 2 one-pixel cells, with the top-left pixel
      (column 0 of row 1, row 0 being the bottom) transparent: three sprites
      named sheet_0, sheet_1 and sheet_3; the index 2 of the dropped cell is
      not reused. */
  lemma {:induction false} DroppedCellLeavesGap()
    ensures var t := Texture(2, 2, [[255, 255], [0, 255]]);
      var s := SliceSettings(CellCount, 2, 2, 32, 32, 0, Vec2(0.5, 0.5));
      var out := Sliced(t, "sheet", s);
      && out.Success? && |out.value| == 3
      && out.value[0] == Sprite("sheet_0", Rect(0, 0, 1, 1))
      && out.value[1] == Sprite("sheet_1", Rect(1, 0, 1, 1))
      && out.value[2] == Sprite("sheet_3", Rect(1, 1, 1, 1))
  {
    var t := Texture(2, 2, [[255, 255], [0, 255]]);
    var s := SliceSettings(CellCount, 2, 2, 32, 32, 0, Vec2(0.5, 0.5));
    var g := GridPlan(2, 2, 1, 1);
    assert Plan(t, s) == Success(g);
    OnePixelDecides(t, 0, 0, 1, 1, 0, 0);
    OnePixelDecides(t, 1, 0, 1, 1, 1, 0);
    OnePixelDecides(t, 1, 1, 1, 1, 1, 1);
    assert CellClear(t, 0, 1, 1, 1) by {
      forall py, px | 1 <= py < 2 && 0 <= px < 1 ensures AlphaAt(t, px, py) <= 0 {
        assert py == 1 && px == 0;
      }
    }
    assert RowCells(t, g, 0, 2) == [Cell(0, 0), Cell(0, 1)];
    assert RowCells(t, g, 1, 2) == [Cell(1, 1)];
    var kept := [Cell(0, 0), Cell(0, 1), Cell(1, 1)];
    assert KeptCells(t, g) == kept;
    assert Sliced(t, "sheet", s) == Success(Render(g, "sheet", s, kept));
    SheetNames();
    RenderedAs(g, s, kept, 0, 0);
    RenderedAs(g, s, kept, 1, 1);
    RenderedAs(g, s, kept, 2, 3);
  }

  /** A sprite of that sheet with the Center preset. */
  function Sprite(name: string, r: Rect): SpriteMeta
  {
    SpriteMeta(r, name, Center, Vec2(0.0, 0.0), Border(0.0, 0.0, 0.0, 0.0))
  }

  lemma RenderedAs(g: GridPlan, s: SliceSettings, kept: seq<Cell>, k: nat, index: nat)
    requires g == GridPlan(2, 2, 1, 1) && s.selectedPivotPreset == 0
    requires k < |kept| && kept[k].row * 2 + kept[k].col == index
    ensures Render(g, "sheet", s, kept)[k] ==
      Sprite(SpriteName("sheet", index), Rect(kept[k].col, kept[k].row, 1, 1))
  {
    DescribedAs(g, s, kept[k], index);
  }

  lemma DescribedAs(g: GridPlan, s: SliceSettings, c: Cell, k: nat)
    requires g == GridPlan(2, 2, 1, 1) && s.selectedPivotPreset == 0
    requires c.row * 2 + c.col == k
    ensures Describe(g, "sheet", s, c) == Sprite(SpriteName("sheet", k), Rect(c.col, c.row, 1, 1))
  {
  }

  lemma SheetNames()
    ensures SpriteName("sheet", 0) == "sheet_0"
    ensures SpriteName("sheet", 1) == "sheet_1"
    ensures SpriteName("sheet", 3) == "sheet_3"
  {
  }
}
