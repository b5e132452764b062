# Letterbox image processor, modelled in Dafny

The modelled program batch-processes the images in a source folder. For
each image, `ImageProcessor` scales the longer side to a square target size
(640 by default) and keeps the aspect ratio. If the result is not square, it
pastes it at the top-left corner of a `target_size` square canvas filled
with a pad colour. It then saves the result under the original file name in
a fresh timestamped folder `dataset/<timestamp>`.

The model has five modules:

- `Paths` (`paths.dfy`): `os.path.basename`, and `os.path.join` with two
  arguments, on `/`-separated strings.
- `Geometry` (`geometry.dfy`): the dimension arithmetic of
  `resize_to_square`, as pure integer functions (`EffectiveSize`,
  `ScaleShorter`, `ResizeDims`) with lemmas.
- `Raster` (`raster.dfy`): an image is a value with a width, a height, a
  colour mode and a grid of pixels. The pixels are colour tuples (`seq<int>`).
  The two library primitives the padding uses are pure functions here:
  `Canvas` is `Image.new` and `Paste` is `Image.paste`.
- `Letterbox` (`letterbox.dfy`): `ResizeToSquare`, the padding specification
  `Padded`, and the method `ApplyPadding`. `ApplyPadding` allocates a 2-D
  array canvas, fills it, and copies the image into its top-left corner in a
  loop. It is proved equal to `Padded`. `Processed` is the resize-then-pad
  transform of `process_single_image`.
- `ImageProcessing` (`image_processing.dfy`): the class `ImageProcessor`
  with its two fields (`sourceFolder`, `targetSize`), the class constants,
  the derived paths (`StorePath` for `store_image`, `CreateOutputFolder`),
  and the methods `ProcessSingleImage` and `ProcessImagesInFolder`.

The filesystem, the clock and the image codec are inputs:

- `FileSystem` gives `os.path.isdir` and `os.listdir`.
- `Codec` gives `Image.open` (`None` on a decode failure) and the resampler
  behind `img.resize`.
- `stamp` is the already-formatted clock reading.

The operations do not write anything. They return the effects they perform,
in order: `MakeDirs(dir)` for `os.makedirs` and `Save(path, image)` for
`img.save`. They also return how the run ended: `Completed`,
`InvalidSourceFolder` (the `ValueError`), or `OpenFailed(path)` (the decode
error that aborts the run).

Two details of the code are easy to misread:

- The shorter side is truncated with `int(...)`, not rounded
  (src/image_processor.py:79, 81). The model truncates.
- The docstring says `dimension` defaults to the instance `target_size`
  (src/image_processor.py:68-69). The parameter's actual default is `0`,
  which `dimension or self.target_size` replaces with the target size
  (src/image_processor.py:61, 74). `EffectiveSize` models this.

The canvas always uses the processor's `target_size`, never the `dimension`
given to `resize_to_square`. This fragile coupling is reproduced as it is.
`CanvasIgnoresDimension` states what it does.

The unspecified modelling functions and predicates (`Paths.Join`,
`Geometry.IsFloorQuotient`, `Geometry.ResizeDims`, `Geometry.ScaleShorter`,
`Raster.WellFormed`, `Raster.At`, `Raster.IsSquare`, `Raster.Covers`,
`Raster.PastedAt`, `ImageProcessing.StorePath`,
`ImageProcessing.CreateOutputFolder` and `ImageProcessing.SaveFor`) carry
no contracts of their own. The lemmas in the table below state what they
mean.

## Model

| member | source | states |
|---|---|---|
| `Geometry.EffectiveSize` | src/image_processor.py:74 | a `dimension` of 0 selects the target size; any other `dimension` is used as given |
| `Geometry.ScaleShorterIsFloor` | src/image_processor.py:79-81 | the scaled shorter side `s` is the truncated quotient (`s*longer <= shorter*size < (s+1)*longer`), so it is at most `size`, and strictly below it when `size > 0` |
| `Geometry.ResizeDimsSpec` | src/image_processor.py:77-84 | landscape: width becomes `size` and height is the truncated `height*size/width`; portrait: the mirror case; square: both sides become `size` |
| `Geometry.ResizeDimsFitsSquare` | src/image_processor.py:77-84 | both new sides are at most `size` and one equals it (the maximum is `size`); for `size > 0` a non-square source stays non-square in the same orientation |
| `Geometry.ResizeDimsUnique` | src/image_processor.py:77-84 | any pair of dimensions meeting the three-case truncation characterisation is exactly `ResizeDims`'s result |
| `Geometry.FloorQuotientUnique` | src/image_processor.py:79-81 | the truncated quotient is unique: this is what makes the characterisation above determine the result |
| `Raster.Canvas` | src/image_processor.py:108-110 | the new canvas has the requested square size and the input's mode |
| `Raster.CanvasAt` | src/image_processor.py:108-110 | every pixel of a new canvas is the fill colour |
| `Raster.Paste` | src/image_processor.py:111 | pasting keeps the canvas's size and mode |
| `Raster.PasteAt` | src/image_processor.py:111 | after a paste at `(dx, dy)`, a canvas pixel is the image's pixel where the image lands and the old canvas pixel elsewhere; the rest of the image is dropped |
| `Letterbox.ResizeToSquare` | src/image_processor.py:60-86 | the resized image keeps the mode, and its size is `ResizeDims` of the source size at `EffectiveSize(dimension, targetSize)` |
| `Letterbox.PadColor` | src/image_processor.py:91-107 | the fill is `pad_color` (default `(114,114,114)`) for mode "RGB" and `(114,)` for every other mode |
| `Letterbox.Padded` | src/image_processor.py:103-112 | the result is always square; a square input is returned unchanged, with no canvas; any other input gives a `targetSize` square; the mode is kept |
| `Letterbox.PaddedPixels` | src/image_processor.py:107-111 | a non-square input is anchored top-left: pixel `(x, y)` is the input pixel when `x < w && y < h` and the fill colour otherwise; input outside the canvas is cropped |
| `Letterbox.ApplyPadding` | src/image_processor.py:88-112 | the method that fills a 2-D canvas array and copies the image into it returns exactly `Padded(img, targetSize, padColor)` |
| `Letterbox.Processed` | src/image_processor.py:55-57 | resize followed by padding keeps the source's colour mode |
| `Letterbox.ProcessedIsTargetSquare` | src/image_processor.py:56-57 | with the default dimension, the output is always exactly `targetSize` by `targetSize` |
| `Letterbox.ProcessedPixels` | src/image_processor.py:55-57 | an output pixel is the resampled source inside the resized area and the pad colour outside it; the pad margin is non-empty for a non-square source when `targetSize > 0` |
| `Letterbox.LandscapeExample` | src/image_processor.py:55-57 | an 800 by 400 RGB image with target 640 becomes 640 by 640: the top 320 rows are the 640 by 320 resize, and the bottom 320 rows are `(114,114,114)` |
| `Letterbox.CanvasIgnoresDimension` | src/image_processor.py:74-111 | with a nonzero `dimension`, a square source stays `dimension` square, and a non-square one is cropped or padded to `targetSize` even though its longer side was `dimension` |
| `Paths.BaseStart` | src/image_processor.py:125 | the base name starts right after the last separator; no separator follows it |
| `Paths.Basename` | src/image_processor.py:125 | the base name contains no separator, is a suffix of the path, and is preceded by a separator when shorter than the path |
| `Paths.BaseStartAfterSep` | src/image_processor.py:125 | in a path made of a prefix ending in a separator and a separator-free tail, the base name starts where the tail starts |
| `Paths.BasenameOfJoin` | src/image_processor.py:125-126 | joining a separator-free name onto any directory gives a path whose base name is that name |
| `Paths.JoinInjective` | src/image_processor.py:126 | different separator-free names joined onto the same directory give different paths |
| `ImageProcessing.StorePathKeepsName` | src/image_processor.py:125-126 | the stored file's base name equals the original's, extension included; for an output directory not ending in `/`, the path is `output_dir + "/" + basename(original)` |
| `ImageProcessing.OutputFolderUnderDataset` | src/image_processor.py:135-136 | a timestamp without separators gives the folder `"dataset/" + stamp` |
| `ImageProcessing.SaveForEntry` | src/image_processor.py:44-58 | an entry is saved exactly when it decodes; it is saved as `output_dir` joined with the entry's own name, as a `targetSize` square in its original mode |
| `ImageProcessing.DistinctEntriesDistinctFiles` | src/image_processor.py:125-126 | two distinct listed entries are stored at two distinct paths, so one run never overwrites its own output |
| `ImageProcessing.ImageProcessor.constructor` | src/image_processor.py:26-30 | the source folder defaults to `""` and the target size to 640, and both take the values given |
| `ImageProcessing.ImageProcessor.SetSourceFolder` | src/image_processor.py:138-144 | sets the source folder without validation and leaves the target size unchanged |
| `ImageProcessing.ImageProcessor.ProcessSingleImage` | src/image_processor.py:48-58 | nothing is saved when the image cannot be decoded; otherwise the saved effect is the resized-then-padded image at `StorePath(output_dir, image_path)` |
| `ImageProcessing.ImageProcessor.ProcessImagesInFolder` | src/image_processor.py:32-46 | an invalid source folder fails with no effects, so no output directory is made; otherwise the output folder is made first, then each listed entry is saved once, in listing order, until the first entry that fails to decode, which ends the run with that path |

## Left out

- `Geometry.ScaleShorter`: the code computes `int(height * (size / width))` in
  IEEE double precision. The model uses the exact truncated quotient
  `height * size / width`. The two can differ by one. For a 31360 by 49
  image at size 640, Python computes `int(49 * (640 / 31360)) == 0`, while
  the model gives the exact value 1. Floating point is not modelled.
- Negative `target_size` and `dimension` are not modelled. Both are `nat`,
  because the image library rejects negative sizes. Zero-length results are
  kept as 0; for example, a 1 by 1000 image gives a new width of 0. What the
  library then does with them is external.
- `Letterbox.ResizeToSquare`: the resampled pixel values of `img.resize` are
  not modelled. They come from the abstract `Sampler` input. Only the size
  and mode of the result are fixed.
- How `Image.new` expands a fill tuple to the bands of a mode is not
  modelled. For example, `(114,)` on a four-band mode is stored as the tuple
  it was given.
- `img.save`: encoding and choosing the format from the file extension are
  not modelled. A save is recorded as a `Save(path, image)` effect.
- `create_output_folder`: formatting `datetime.now()` with `%Y%m%d%H%M%S`
  reads the clock, so it is not modelled. The formatted stamp is an input.
  Two runs in the same second give the same folder; the model does not
  describe that collision.
- `os.path.isdir`, `os.listdir` and `os.makedirs` do filesystem I/O. They
  are inputs (`FileSystem`) or recorded effects (`MakeDirs`). That
  `exist_ok=True` tolerates an existing directory is not modelled.
- The ordering of `os.listdir` is whatever the `FileSystem` input returns.
  The model only says that entries are processed in that order.
- Exceptions become `Outcome` values. An `Image.open` failure is
  `OpenFailed`. Failures inside `resize` or `save` are not modelled.
- `main.py` is not part of this model. It only builds a processor for
  `<cwd>/input_images` and starts the batch, and has no logic of its own.
