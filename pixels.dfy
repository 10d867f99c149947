/** The sheet's pixels as the slicer sees them, and the emptiness test of one
    cell (IsCellEmpty, SliceSpriteSheets.cs:286-297). */
module SheetPixels {

  /** A read-only view of a decoded sheet: only the alpha channel matters.
      `alpha[y][x]` is the alpha of the pixel in column x of row y; row 0 is the
      bottom row, as in the host's pixel coordinates. */
  datatype Texture = Texture(width: nat, height: nat, alpha: seq<seq<int>>)
  {
    predicate Valid()
    {
      |alpha| == height && forall y :: 0 <= y < height ==> |alpha[y]| == width
    }
  }

  /** Alpha at (x, y); pixels outside the sheet read as transparent. */
  function AlphaAt(t: Texture, x: int, y: int): int
  {
    if 0 <= y < |t.alpha| && 0 <= x < |t.alpha[y]| then t.alpha[y][x] else 0
  }

  /** The block [x, x+w) x [y, y+h) lies inside the sheet (what the host's
      block read demands of its caller). */
  predicate InSheet(t: Texture, x: int, y: int, w: int, h: int)
  {
    0 <= x && 0 <= y && 0 <= w && 0 <= h && x + w <= t.width && y + h <= t.height
  }

  /** No pixel of the block [x, x+w) x [y, y+h) has alpha above zero. */
  ghost predicate CellClear(t: Texture, x: int, y: int, w: int, h: int)
  {
    forall py, px :: y <= py < y + h && x <= px < x + w ==> AlphaAt(t, px, py) <= 0
  }

  /** The host's block read: the w x h pixels of the block flattened row after
      row, bottom row first, each row left to right. */
  function Pixels(t: Texture, x: int, y: int, w: int, h: int): (p: seq<int>)
    requires t.Valid() && InSheet(t, x, y, w, h)
    decreases h
  {
    if h == 0 then [] else Pixels(t, x, y, w, h - 1) + t.alpha[y + h - 1][x..x + w]
  }

  /** No element of `s` is above zero. */
  predicate AllClear(s: seq<int>)
  {
    forall k :: 0 <= k < |s| ==> s[k] <= 0
  }

  /** The flattened block holds no opaque value exactly when no pixel of the
      block is opaque: the block read loses and invents no pixel. */
  lemma {:induction false} PixelsClear(t: Texture, x: int, y: int, w: int, h: int)
    requires t.Valid() && InSheet(t, x, y, w, h)
    ensures AllClear(Pixels(t, x, y, w, h)) <==> CellClear(t, x, y, w, h)
    decreases h
  {
    if h > 0 {
      PixelsClear(t, x, y, w, h - 1);
      var top := y + h - 1;
      var below := Pixels(t, x, y, w, h - 1);
      var row := t.alpha[top][x..x + w];
      var all := below + row;
      assert Pixels(t, x, y, w, h) == all;
      if AllClear(all) {
        assert AllClear(below) by {
          forall k | 0 <= k < |below| ensures below[k] <= 0 {
            assert all[k] == below[k];
          }
        }
        forall py, px | y <= py < y + h && x <= px < x + w ensures AlphaAt(t, px, py) <= 0 {
          if py == top {
            assert all[|below| + (px - x)] == AlphaAt(t, px, py);
          }
        }
      }
      if CellClear(t, x, y, w, h) {
        assert CellClear(t, x, y, w, h - 1);
        forall k | 0 <= k < |all| ensures all[k] <= 0 {
          if k >= |below| {
            assert all[k] == AlphaAt(t, x + (k - |below|), top);
          }
        }
      }
    }
  }

  /** IsCellEmpty: reads the block and scans it, stopping at the first pixel
      whose alpha is above zero. */
  method IsCellEmpty(t: Texture, x: int, y: int, w: int, h: int) returns (empty: bool)
    requires t.Valid() && InSheet(t, x, y, w, h)
    ensures empty <==> CellClear(t, x, y, w, h)
  {
    var pixels := Pixels(t, x, y, w, h);
    PixelsClear(t, x, y, w, h);
    for k := 0 to |pixels|
      invariant forall m :: 0 <= m < k ==> pixels[m] <= 0
    {
      if pixels[k] > 0 {
        return false;
      }
    }
    return true;
  }

  /** A single opaque pixel anywhere in the block makes it non-empty. */
  lemma OnePixelDecides(t: Texture, x: int, y: int, w: int, h: int, px: int, py: int)
    requires x <= px < x + w && y <= py < y + h && AlphaAt(t, px, py) > 0
    ensures !CellClear(t, x, y, w, h)
  {
  }

  /** A block of zero area never contains an opaque pixel. */
  lemma EmptyBlockIsClear(t: Texture, x: int, y: int, w: int, h: int)
    requires w <= 0 || h <= 0
    ensures CellClear(t, x, y, w, h)
  {
  }
}
