/**
 * The captured screen as the pipeline sees it once colour conversion is done:
 * a height x width grid of three-channel pixels in row-major order with the
 * origin at the top left (the numpy array of shape (h, w, 3)).
 */
module Raster {
  /** One pixel in blue-green-red channel order; the pipeline never looks inside. */
  datatype Pixel = Bgr(blue: bv8, green: bv8, red: bv8)

  datatype Grid = Grid(height: nat, width: nat, rows: seq<seq<Pixel>>)

  predicate IsRectangular(g: Grid)
  {
    |g.rows| == g.height && forall y | 0 <= y < g.height :: |g.rows[y]| == g.width
  }

  /** A raster whose rows all have the same width. */
  type Image = g: Grid | IsRectangular(g) witness Grid(0, 0, [])

  /** An image without pixels: `cv2.imwrite` refuses to encode one. */
  predicate IsEmpty(img: Image)
  {
    img.height == 0 || img.width == 0
  }

  /** A rectangle of pixel positions: rows top..bottom-1, columns left..right-1. */
  datatype Rect = Rect(top: nat, left: nat, bottom: nat, right: nat)

  predicate Contains(r: Rect, y: int, x: int)
  {
    r.top <= y < r.bottom && r.left <= x < r.right
  }

  predicate FitsIn(r: Rect, img: Image)
  {
    r.top <= r.bottom <= img.height && r.left <= r.right <= img.width
  }

  /**
   * The numpy slice `img[top:bottom, left:right]` for a rectangle inside the
   * image: a new image whose pixel (y, x) is the source pixel (top + y, left + x).
   */
  function Crop(img: Image, r: Rect): (c: Image)
    requires FitsIn(r, img)
    ensures c.height == r.bottom - r.top && c.width == r.right - r.left
    ensures forall y, x | 0 <= y < c.height && 0 <= x < c.width ::
      c.rows[y][x] == img.rows[r.top + y][r.left + x]
  {
    Grid(r.bottom - r.top, r.right - r.left,
      seq(r.bottom - r.top, k requires 0 <= k < r.bottom - r.top => img.rows[r.top + k][r.left..r.right]))
  }
}
