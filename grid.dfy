/**
 * The 3x3 tiling: integer division of the height and width by 3 gives the
 * tile size, and tile (row, col) starts at (row * h/3, col * w/3). Tiles are
 * numbered 1..9 in row-major order.
 */
module Grid {
  import opened Raster

  /** The list `[(r, c) for r in range(3) for c in range(3)]` the tiling loop enumerates. */
  function Cells(): (cs: seq<(nat, nat)>)
    ensures |cs| == 9
  {
    [(0, 0), (0, 1), (0, 2), (1, 0), (1, 1), (1, 2), (2, 0), (2, 1), (2, 2)]
  }

  /** The tile rectangle of grid cell (row, col) in an h x w image. */
  function TileRect(row: nat, col: nat, h: nat, w: nat): (r: Rect)
    requires row < 3 && col < 3
    ensures r.bottom - r.top == h / 3 && r.right - r.left == w / 3
    ensures r.bottom <= h && r.right <= w
  {
    var segmentHeight, segmentWidth := h / 3, w / 3;
    var left := col * segmentWidth;
    var top := row * segmentHeight;
    Rect(top, left, top + segmentHeight, left + segmentWidth)
  }

  /** The band 0, 1 or 2 that coordinate `v` falls in when the bands have size `s`. */
  function Band(v: nat, s: nat): nat
  {
    if v < s then 0 else if v < 2 * s then 1 else 2
  }

  // ---------------------------------------------------------------------
  // Lemmas

  /** Enumeration position k + 1 names cell (row, col) with k + 1 == 3 * row + col + 1. */
  lemma CellIndex(row: nat, col: nat)
    requires row < 3 && col < 3
    ensures Cells()[3 * row + col] == (row, col)
  {
    if row == 0 {
    } else if row == 1 {
    } else {
    }
  }

  /** Every enumerated cell is inside the 3x3 grid and sits at position 3 * row + col. */
  lemma CellsInGrid(k: nat)
    requires k < 9
    ensures Cells()[k].0 < 3 && Cells()[k].1 < 3
    ensures 3 * Cells()[k].0 + Cells()[k].1 == k
  {
  }

  lemma BandOf(v: nat, s: nat, b: nat)
    requires b < 3 && b * s <= v < b * s + s
    ensures Band(v, s) == b
  {
    if b == 1 { assert s <= v < 2 * s; }
    else if b == 2 { assert 2 * s <= v; }
  }

  /** Two different cells never share a pixel. */
  lemma TilesDisjoint(r1: nat, c1: nat, r2: nat, c2: nat, h: nat, w: nat, y: int, x: int)
    requires r1 < 3 && c1 < 3 && r2 < 3 && c2 < 3
    requires Contains(TileRect(r1, c1, h, w), y, x) && Contains(TileRect(r2, c2, h, w), y, x)
    ensures r1 == r2 && c1 == c2
  {
    BandOf(y, h / 3, r1);
    BandOf(y, h / 3, r2);
    BandOf(x, w / 3, c1);
    BandOf(x, w / 3, c2);
  }

  /**
   * The nine tiles cover exactly [0, 3*(h/3)) x [0, 3*(w/3)): a pixel in that
   * region lies in the tile of its bands, and a pixel in any tile lies in it.
   * The last h % 3 rows and w % 3 columns belong to no tile.
   */
  lemma TilesCover(h: nat, w: nat, y: nat, x: nat)
    ensures (y < 3 * (h / 3) && x < 3 * (w / 3)) ==>
      Band(y, h / 3) < 3 && Band(x, w / 3) < 3 &&
      Contains(TileRect(Band(y, h / 3), Band(x, w / 3), h, w), y, x)
    ensures forall row: nat, col: nat | row < 3 && col < 3 && Contains(TileRect(row, col, h, w), y, x) ::
      y < 3 * (h / 3) && x < 3 * (w / 3)
  {
    forall row: nat, col: nat | row < 3 && col < 3 && Contains(TileRect(row, col, h, w), y, x)
      ensures y < 3 * (h / 3) && x < 3 * (w / 3)
    {
      BandOf(y, h / 3, row);
      BandOf(x, w / 3, col);
    }
  }

  /** The pixel at (y, x) of the covered region appears in its tile at the same place, offset by the tile's corner. */
  lemma TilePixel(img: Image, y: nat, x: nat)
    requires y < 3 * (img.height / 3) && x < 3 * (img.width / 3)
    ensures
      var row, col := Band(y, img.height / 3), Band(x, img.width / 3);
      row < 3 && col < 3 &&
      var r := TileRect(row, col, img.height, img.width);
      FitsIn(r, img) && r.top <= y && r.left <= x &&
      Crop(img, r).rows[y - r.top][x - r.left] == img.rows[y][x]
  {
    TilesCover(img.height, img.width, y, x);
  }
}
