/** Pivot presets and alignments: the preset list (SliceSpriteSheets.cs:20-32),
    the preset-to-pivot table of the options panel (SliceSpriteSheets.cs:94-127)
    and GetPivotAlignment (SliceSpriteSheets.cs:299-324). */
module Pivots {

  /** A pivot in normalised sprite space, origin at the bottom-left corner.
      Coordinates are exact reals; the editor only stores them. */
  datatype Vec2 = Vec2(x: real, y: real)

  /** The host's sprite alignment tags: nine named anchors and Custom. */
  datatype Alignment =
    | Center | TopLeft | TopCenter | TopRight | LeftCenter | RightCenter
    | BottomLeft | BottomCenter | BottomRight | Custom

  /** The preset names offered by the pivot drop-down, in drop-down order. */
  const PIVOT_PRESETS: seq<string> :=
    ["Center", "Top", "Top Left", "Top Right", "Left", "Right",
     "Bottom", "Bottom Left", "Bottom Right", "Custom"]

  /** Index of the Custom preset: the last entry of the list. */
  function CustomPresetIndex(): (k: int)
    ensures 0 <= k < |PIVOT_PRESETS| && PIVOT_PRESETS[k] == "Custom"
    ensures forall m :: 0 <= m < |PIVOT_PRESETS| && m != k ==> PIVOT_PRESETS[m] != "Custom"
  {
    |PIVOT_PRESETS| - 1
  }

  /** Reference meaning of each named alignment: the point of the sprite's
      rectangle it anchors, in normalised coordinates. */
  function Anchor(a: Alignment): Vec2
    requires a != Custom
  {
    match a
    case Center => Vec2(0.5, 0.5)
    case TopLeft => Vec2(0.0, 1.0)
    case TopCenter => Vec2(0.5, 1.0)
    case TopRight => Vec2(1.0, 1.0)
    case LeftCenter => Vec2(0.0, 0.5)
    case RightCenter => Vec2(1.0, 0.5)
    case BottomLeft => Vec2(0.0, 0.0)
    case BottomCenter => Vec2(0.5, 0.0)
    case BottomRight => Vec2(1.0, 0.0)
  }

  /** The options panel's pivot table: a named preset sets the pivot to its
      fixed point, "Custom" takes the value the user typed, and a name that
      matches no case leaves the pivot as it was. */
  function PresetPivot(name: string, current: Vec2, typed: Vec2): (p: Vec2)
    ensures name == "Custom" ==> p == typed
    ensures name !in PIVOT_PRESETS ==> p == current
    ensures name in PIVOT_PRESETS && name != "Custom" ==>
      0.0 <= p.x <= 1.0 && 0.0 <= p.y <= 1.0
  {
    if name == "Center" then Vec2(0.5, 0.5)
    else if name == "Top" then Vec2(0.5, 1.0)
    else if name == "Top Left" then Vec2(0.0, 1.0)
    else if name == "Top Right" then Vec2(1.0, 1.0)
    else if name == "Left" then Vec2(0.0, 0.5)
    else if name == "Right" then Vec2(1.0, 0.5)
    else if name == "Bottom" then Vec2(0.5, 0.0)
    else if name == "Bottom Left" then Vec2(0.0, 0.0)
    else if name == "Bottom Right" then Vec2(1.0, 0.0)
    else if name == "Custom" then typed
    else current
  }

  /** GetPivotAlignment: preset index to alignment tag, Center by default. */
  function GetPivotAlignment(presetIndex: int): (a: Alignment)
    ensures a != Custom
    ensures !(0 <= presetIndex <= 8) ==> a == Center
  {
    match presetIndex
    case 0 => Center
    case 1 => TopCenter
    case 2 => TopLeft
    case 3 => TopRight
    case 4 => LeftCenter
    case 5 => RightCenter
    case 6 => BottomCenter
    case 7 => BottomLeft
    case 8 => BottomRight
    case _ => Center
  }

  /** The nine named presets get nine different alignments. */
  lemma AlignmentsDistinct(m: int, n: int)
    requires 0 <= m <= 8 && 0 <= n <= 8 && m != n
    ensures GetPivotAlignment(m) != GetPivotAlignment(n)
  {
  }

  /** Every named alignment is the alignment of some named preset. */
  lemma {:induction false} AlignmentsCovered(a: Alignment)
    requires a != Custom
    ensures exists k :: 0 <= k <= 8 && GetPivotAlignment(k) == a
  {
    match a
    case Center => assert GetPivotAlignment(0) == a;
    case TopCenter => assert GetPivotAlignment(1) == a;
    case TopLeft => assert GetPivotAlignment(2) == a;
    case TopRight => assert GetPivotAlignment(3) == a;
    case LeftCenter => assert GetPivotAlignment(4) == a;
    case RightCenter => assert GetPivotAlignment(5) == a;
    case BottomCenter => assert GetPivotAlignment(6) == a;
    case BottomLeft => assert GetPivotAlignment(7) == a;
    case BottomRight => assert GetPivotAlignment(8) == a;
  }

  /** The two tables agree: for each named preset, the pivot the options panel
      shows is the anchor of the alignment the slicer writes; for Custom it is
      the typed value. */
  lemma {:induction false} TablesAgree(k: int, current: Vec2, typed: Vec2)
    requires 0 <= k < |PIVOT_PRESETS|
    ensures k < CustomPresetIndex() ==>
      PresetPivot(PIVOT_PRESETS[k], current, typed) == Anchor(GetPivotAlignment(k))
    ensures k == CustomPresetIndex() ==> PresetPivot(PIVOT_PRESETS[k], current, typed) == typed
  {
    if k == 0 {
    } else if k == 1 {
    } else if k == 2 {
    } else if k == 3 {
    } else if k == 4 {
    } else if k == 5 {
    } else if k == 6 {
    } else if k == 7 {
    } else if k == 8 {
    } else {
    }
  }

  /** Every preset in the list sets the pivot to a point of the unit square
      (the typed value for Custom aside). */
  lemma PresetPivotInUnitSquare(k: int, current: Vec2, typed: Vec2)
    requires 0 <= k < CustomPresetIndex()
    ensures var p := PresetPivot(PIVOT_PRESETS[k], current, typed);
      0.0 <= p.x <= 1.0 && 0.0 <= p.y <= 1.0
  {
    TablesAgree(k, current, typed);
  }
}
