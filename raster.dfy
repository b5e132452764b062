/** Decoded images as values: size, colour mode and a grid of pixels, with
    the two image-library primitives the letterbox uses as pure operations:
    a blank canvas (`Image.new`) and pasting one image onto another
    (`Image.paste`). */
module Raster {

  /** A colour as a tuple of band values, e.g. `[114, 114, 114]` for RGB. */
  type Pixel = seq<int>

  /** `rows[y][x]` is the pixel in column `x` of row `y`. */
  datatype Bitmap = Bitmap(width: nat, height: nat, mode: string, rows: seq<seq<Pixel>>)

  predicate WellFormed(b: Bitmap)
  {
    |b.rows| == b.height && forall y :: 0 <= y < |b.rows| ==> |b.rows[y]| == b.width
  }

  /** An image whose grid has the size it claims. */
  type Image = b: Bitmap | WellFormed(b) witness Bitmap(0, 0, "", [])

  function At(img: Image, x: nat, y: nat): Pixel
    requires x < img.width && y < img.height
  {
    img.rows[y][x]
  }

  predicate IsSquare(img: Image)
  {
    img.width == img.height
  }

  /** Builds the image of the given size whose pixel `(x, y)` is `f(x, y)`. */
  function Tabulate(width: nat, height: nat, mode: string, f: (nat, nat) -> Pixel): (r: Image)
    ensures r.width == width && r.height == height && r.mode == mode
  {
    Bitmap(width, height, mode,
      seq(height, y requires 0 <= y < height => seq(width, x requires 0 <= x < width => f(x, y))))
  }

  lemma TabulateAt(width: nat, height: nat, mode: string, f: (nat, nat) -> Pixel, x: nat, y: nat)
    requires x < width && y < height
    ensures At(Tabulate(width, height, mode, f), x, y) == f(x, y)
  {
  }

  /** `Image.new(mode, (size, size), color)`: a square canvas of one colour. */
  function Canvas(mode: string, size: nat, color: Pixel): (c: Image)
    ensures c.width == size && c.height == size && c.mode == mode
  {
    Tabulate(size, size, mode, (x, y) => color)
  }

  lemma CanvasAt(mode: string, size: nat, color: Pixel, x: nat, y: nat)
    requires x < size && y < size
    ensures At(Canvas(mode, size, color), x, y) == color
  {
    TabulateAt(size, size, mode, (x, y) => color, x, y);
  }

  /** Whether canvas position `(x, y)` is covered by an image of `width` by
      `height` pasted with its top-left corner at `(dx, dy)`. */
  predicate Covers(dx: nat, dy: nat, width: nat, height: nat, x: nat, y: nat)
  {
    dx <= x < dx + width && dy <= y < dy + height
  }

  /** The pixel at `(x, y)` of `canvas` after `img` is pasted at `(dx, dy)`. */
  function PastedAt(canvas: Image, img: Image, dx: nat, dy: nat, x: nat, y: nat): Pixel
  {
    if x < canvas.width && y < canvas.height then
      if Covers(dx, dy, img.width, img.height, x, y) then At(img, x - dx, y - dy)
      else At(canvas, x, y)
    else []
  }

  /** `canvas.paste(img, (dx, dy))`: the canvas with `img` drawn at offset
      `(dx, dy)`; the parts of `img` that fall outside the canvas are
      dropped. */
  function Paste(canvas: Image, img: Image, dx: nat, dy: nat): (r: Image)
    ensures r.width == canvas.width && r.height == canvas.height && r.mode == canvas.mode
  {
    Tabulate(canvas.width, canvas.height, canvas.mode,
      (x: nat, y: nat) => PastedAt(canvas, img, dx, dy, x, y))
  }

  /** Inside the canvas, a pasted image shows where it lands and the canvas
      shows everywhere else. */
  lemma PasteAt(canvas: Image, img: Image, dx: nat, dy: nat, x: nat, y: nat)
    requires x < canvas.width && y < canvas.height
    ensures At(Paste(canvas, img, dx, dy), x, y) ==
      if Covers(dx, dy, img.width, img.height, x, y) then At(img, x - dx, y - dy)
      else At(canvas, x, y)
  {
    TabulateAt(canvas.width, canvas.height, canvas.mode,
      (x: nat, y: nat) => PastedAt(canvas, img, dx, dy, x, y), x, y);
  }
}
