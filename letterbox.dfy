/** The letterbox transform of `ImageProcessor`: `resize_to_square` scales
    the longer side to the square size, `apply_padding` pastes a non-square
    result at the top-left corner of a `target_size` square canvas, and
    `process_single_image` chains the two with the default dimension. */
module Letterbox {
  import opened Geometry
  import opened Raster

  /** Default `pad_color` of `apply_padding`. */
  const DefaultPadColor: Pixel := [114, 114, 114]

  /** Fill value used for every mode other than "RGB". */
  const SingleBandPad: Pixel := [114]

  /** The image library's resampler: the pixel at `(x, y)` of `src` resized
      to `width` by `height`. Its values are not modelled. */
  type Sampler = (Image, nat, nat, nat, nat) -> Pixel

  /** `resize_to_square(img, dimension)` for a processor whose target size is
      `targetSize`: the source resampled to `ResizeDims` of its size. */
  function ResizeToSquare(img: Image, dimension: nat, targetSize: nat, sample: Sampler): (r: Image)
    ensures r.mode == img.mode
    ensures Dims(r.width, r.height) ==
      ResizeDims(img.width, img.height, EffectiveSize(dimension, targetSize))
  {
    var d := ResizeDims(img.width, img.height, EffectiveSize(dimension, targetSize));
    Tabulate(d.width, d.height, img.mode, (x: nat, y: nat) => sample(img, d.width, d.height, x, y))
  }

  /** The fill colour of the canvas: `pad_color` for "RGB", `(114,)` for any
      other mode. */
  function PadColor(mode: string, padColor: Pixel): (c: Pixel)
    ensures mode == "RGB" ==> c == padColor
    ensures mode != "RGB" ==> c == [114]
  {
    if mode == "RGB" then padColor else SingleBandPad
  }

  /** What `apply_padding` returns: a square image as it is, anything else
      pasted at `(0, 0)` onto a fresh `targetSize` square canvas. The result
      is always square, so padding twice is padding once. */
  function Padded(img: Image, targetSize: nat, padColor: Pixel): (r: Image)
    ensures IsSquare(r)
    ensures IsSquare(img) ==> r == img
    ensures !IsSquare(img) ==> r.width == targetSize && r.height == targetSize
    ensures r.mode == img.mode
  {
    if IsSquare(img) then img
    else Paste(Canvas(img.mode, targetSize, PadColor(img.mode, padColor)), img, 0, 0)
  }

  /** Top-left anchoring: inside the canvas, a pixel of a padded non-square
      image is the source pixel where the source reaches, and the fill
      colour to the right of and below it. */
  lemma PaddedPixels(img: Image, targetSize: nat, padColor: Pixel, x: nat, y: nat)
    requires !IsSquare(img)
    requires x < targetSize && y < targetSize
    ensures var r := Padded(img, targetSize, padColor);
      x < r.width && y < r.height &&
      At(r, x, y) == if x < img.width && y < img.height then At(img, x, y)
                     else PadColor(img.mode, padColor)
  {
    var canvas := Canvas(img.mode, targetSize, PadColor(img.mode, padColor));
    PasteAt(canvas, img, 0, 0, x, y);
    CanvasAt(img.mode, targetSize, PadColor(img.mode, padColor), x, y);
    assert Covers(0, 0, img.width, img.height, x, y) <==> x < img.width && y < img.height;
  }

  /** `apply_padding(resized_img, pad_color)`: allocates the canvas, fills it
      with the pad colour and copies the part of the image that fits, row by
      row, into its top-left corner. */
  method ApplyPadding(img: Image, targetSize: nat, padColor: Pixel := DefaultPadColor)
    returns (r: Image)
    ensures r == Padded(img, targetSize, padColor)
  {
    if img.width == img.height {
      return img;
    }
    var color := PadColor(img.mode, padColor);
    var canvas := new Pixel[targetSize, targetSize]((y, x) => color);
    var h := if img.height < targetSize then img.height else targetSize;
    var w := if img.width < targetSize then img.width else targetSize;
    var y := 0;
    while y < h
      invariant 0 <= y <= h
      invariant forall i, j :: 0 <= i < targetSize && 0 <= j < targetSize ==>
        canvas[i, j] == if i < y && j < w then img.rows[i][j] else color
    {
      var x := 0;
      while x < w
        invariant 0 <= x <= w
        invariant forall i, j :: 0 <= i < targetSize && 0 <= j < targetSize ==>
          canvas[i, j] == if (i < y && j < w) || (i == y && j < x) then img.rows[i][j] else color
      {
        canvas[y, x] := img.rows[y][x];
        x := x + 1;
      }
      y := y + 1;
    }
    r := Bitmap(targetSize, targetSize, img.mode,
      seq(targetSize, i requires 0 <= i < targetSize reads canvas =>
        seq(targetSize, j requires 0 <= j < targetSize reads canvas => canvas[i, j])));
    ghost var expected := Padded(img, targetSize, padColor);
    forall i | 0 <= i < targetSize
      ensures r.rows[i] == expected.rows[i]
    {
      forall j | 0 <= j < targetSize
        ensures r.rows[i][j] == expected.rows[i][j]
      {
        PaddedPixels(img, targetSize, padColor, j, i);
      }
    }
  }

  /** `process_single_image`'s transform: resize with the default dimension,
      then pad with the default colour. */
  function Processed(img: Image, targetSize: nat, sample: Sampler): (r: Image)
    ensures r.mode == img.mode
  {
    Padded(ResizeToSquare(img, 0, targetSize, sample), targetSize, DefaultPadColor)
  }

  /** With the default dimension every processed image is exactly
      `targetSize` by `targetSize`: a resized square already is, and any
      other result gets the `targetSize` canvas. */
  lemma ProcessedIsTargetSquare(img: Image, targetSize: nat, sample: Sampler)
    ensures var r := Processed(img, targetSize, sample);
      r.width == targetSize && r.height == targetSize && r.mode == img.mode
  {
    ResizeDimsFitsSquare(img.width, img.height, targetSize);
  }

  /** Pixel `(x, y)` of a processed image is the resampled source where the
      resized image reaches and the pad colour elsewhere; the margin is
      never empty for a non-square source and a positive target size. */
  lemma ProcessedPixels(img: Image, targetSize: nat, sample: Sampler, x: nat, y: nat)
    requires x < targetSize && y < targetSize
    ensures var d := ResizeDims(img.width, img.height, targetSize);
      var r := Processed(img, targetSize, sample);
      x < r.width && y < r.height &&
      At(r, x, y) == if x < d.width && y < d.height then sample(img, d.width, d.height, x, y)
                     else PadColor(img.mode, DefaultPadColor)
    ensures targetSize > 0 && !IsSquare(img) ==>
      var d := ResizeDims(img.width, img.height, targetSize);
      d.width < targetSize || d.height < targetSize
  {
    var resized := ResizeToSquare(img, 0, targetSize, sample);
    ResizeDimsFitsSquare(img.width, img.height, targetSize);
    ProcessedIsTargetSquare(img, targetSize, sample);
    if !IsSquare(resized) {
      PaddedPixels(resized, targetSize, DefaultPadColor, x, y);
    }
  }

  /** An 800 by 400 RGB image processed with target size 640 is 640 by 640:
      its top 320 rows hold the image resized to 640 by 320 and the bottom
      320 rows are solid (114, 114, 114). */
  lemma LandscapeExample(img: Image, sample: Sampler, x: nat, y: nat)
    requires img.width == 800 && img.height == 400 && img.mode == "RGB"
    requires x < 640 && y < 640
    ensures var r := Processed(img, 640, sample);
      r.width == 640 && r.height == 640 && r.mode == "RGB" &&
      At(r, x, y) == if y < 320 then sample(img, 640, 320, x, y) else [114, 114, 114]
  {
    assert ResizeDims(800, 400, 640) == Dims(640, 320);
    ProcessedIsTargetSquare(img, 640, sample);
    ProcessedPixels(img, 640, sample, x, y);
  }

  /** The canvas size follows the processor's target size, not the
      `dimension` passed to `resize_to_square`: a square source resized to a
      nonzero `dimension` keeps that size, and a non-square one is cut to
      (or padded up to) `targetSize`, losing its pixels beyond it. */
  lemma CanvasIgnoresDimension(img: Image, dimension: nat, targetSize: nat, sample: Sampler)
    requires dimension != 0
    ensures var resized := ResizeToSquare(img, dimension, targetSize, sample);
      var r := Padded(resized, targetSize, DefaultPadColor);
      (IsSquare(img) ==> r.width == dimension && r.height == dimension) &&
      (!IsSquare(img) ==>
         r.width == targetSize && r.height == targetSize &&
         (resized.width == dimension || resized.height == dimension))
  {
    ResizeDimsFitsSquare(img.width, img.height, dimension);
  }
}
