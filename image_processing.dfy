/** `ImageProcessor`: its configuration, the output paths it derives, and
    the single-image and whole-folder operations. The filesystem, the clock
    and the image codec are parameters; instead of touching the disk, the
    operations return the directory creations and file saves they perform,
    in order. */
module ImageProcessing {
  import opened Paths
  import opened Raster
  import opened Letterbox

  datatype Option<T> = None | Some(value: T)

  /** Class-level defaults of `ImageProcessor`. */
  const TargetSize: nat := 640
  const OutputFolder: string := "dataset"

  /** An effect on the filesystem: `os.makedirs(dir, exist_ok=True)` or
      `img.save(path)`. */
  datatype Effect = MakeDirs(dir: string) | Save(path: string, image: Image)

  /** How a batch run ends: normally, with the `ValueError` for a source
      folder that is not a directory, or with the codec's error on the image
      at `path` (which stops the run). */
  datatype Outcome = Completed | InvalidSourceFolder | OpenFailed(path: string)

  /** `os.path.isdir` and `os.listdir` as seen during one run. */
  datatype FileSystem = FileSystem(isDir: string -> bool, listDir: string -> seq<string>)

  /** `Image.open` (None when the file cannot be decoded) and the resampler
      behind `img.resize`. */
  datatype Codec = Codec(decode: string -> Option<Image>, sample: Sampler)

  /** `store_image`'s save path: the original's base name inside
      `outputDir`. */
  function StorePath(outputDir: string, originalPath: string): string
  {
    Join(outputDir, Basename(originalPath))
  }

  /** The stored file keeps the original file name, extension included, and
      sits directly in `outputDir`. */
  lemma StorePathKeepsName(outputDir: string, originalPath: string)
    ensures Basename(StorePath(outputDir, originalPath)) == Basename(originalPath)
    ensures outputDir != [] && outputDir[|outputDir| - 1] != Sep ==>
      StorePath(outputDir, originalPath) == outputDir + "/" + Basename(originalPath)
  {
    BasenameOfJoin(outputDir, Basename(originalPath));
  }

  /** `create_output_folder` for `stamp`, the clock reading already
      formatted with the pattern `%Y%m%d%H%M%S`; the formatting itself is
      not modelled. */
  function CreateOutputFolder(stamp: string): string
  {
    Join(OutputFolder, stamp)
  }

  /** A timestamp without separators names a folder directly under
      "dataset". */
  lemma OutputFolderUnderDataset(stamp: string)
    requires Sep !in stamp
    ensures CreateOutputFolder(stamp) == "dataset/" + stamp
  {
    assert |stamp| > 0 ==> stamp[0] != Sep;
    assert OutputFolder[|OutputFolder| - 1] != Sep;
  }

  /** What processing the file at `imagePath` saves: nothing when it cannot
      be decoded, otherwise the letterboxed image under the original name. */
  function SaveFor(imagePath: string, outputDir: string, codec: Codec, targetSize: nat): Option<Effect>
  {
    match codec.decode(imagePath)
    case None => None
    case Some(img) => Some(Save(StorePath(outputDir, imagePath), Processed(img, targetSize, codec.sample)))
  }

  /** A listed entry (a name without separators) processed from any source
      folder is saved as `outputDir` joined with that same name, as a
      `targetSize` square in its original mode; different entries never
      overwrite each other. */
  lemma SaveForEntry(sourceFolder: string, entry: string, outputDir: string, codec: Codec, targetSize: nat)
    requires Sep !in entry
    ensures SaveFor(Join(sourceFolder, entry), outputDir, codec, targetSize).Some?
      <==> codec.decode(Join(sourceFolder, entry)).Some?
    ensures match SaveFor(Join(sourceFolder, entry), outputDir, codec, targetSize)
      case None => true
      case Some(e) =>
        e.Save? && e.path == Join(outputDir, entry) &&
        e.image.width == targetSize && e.image.height == targetSize &&
        e.image.mode == codec.decode(Join(sourceFolder, entry)).value.mode
  {
    BasenameOfJoin(sourceFolder, entry);
    StorePathKeepsName(outputDir, Join(sourceFolder, entry));
    match codec.decode(Join(sourceFolder, entry))
    case None =>
    case Some(img) => ProcessedIsTargetSquare(img, targetSize, codec.sample);
  }

  /** Two distinct listed entries are saved to two distinct paths. */
  lemma DistinctEntriesDistinctFiles(outputDir: string, e1: string, e2: string)
    requires Sep !in e1 && Sep !in e2 && e1 != e2
    ensures Join(outputDir, e1) != Join(outputDir, e2)
  {
    if Join(outputDir, e1) == Join(outputDir, e2) {
      JoinInjective(outputDir, e1, e2);
    }
  }

  class ImageProcessor {
    var sourceFolder: string
    var targetSize: nat

    constructor (sourceFolder: string := "", targetSize: nat := TargetSize)
      ensures this.sourceFolder == sourceFolder && this.targetSize == targetSize
    {
      this.sourceFolder := sourceFolder;
      this.targetSize := targetSize;
    }

    /** `set_source_folder`: no validation here; the target size is kept. */
    method SetSourceFolder(path: string)
      modifies this`sourceFolder
      ensures sourceFolder == path && targetSize == old(targetSize)
    {
      sourceFolder := path;
    }

    /** `process_single_image`: open, resize, pad, then store. */
    method ProcessSingleImage(imagePath: string, outputDir: string, codec: Codec)
      returns (saved: Option<Effect>)
      ensures saved == SaveFor(imagePath, outputDir, codec, targetSize)
    {
      var decoded := codec.decode(imagePath);
      if decoded.None? {
        return None;
      }
      var resized := ResizeToSquare(decoded.value, 0, targetSize, codec.sample);
      var padded := ApplyPadding(resized, targetSize);
      saved := Some(Save(StorePath(outputDir, imagePath), padded));
    }

    /** `process_images_in_folder`: fails before creating anything when the
        source folder is not a directory; otherwise creates the output folder
        once, then processes the listed entries one at a time in listing
        order, stopping at the first one that cannot be decoded. */
    method ProcessImagesInFolder(fs: FileSystem, stamp: string, codec: Codec)
      returns (outcome: Outcome, effects: seq<Effect>)
      ensures !fs.isDir(sourceFolder) <==> outcome == InvalidSourceFolder
      ensures !fs.isDir(sourceFolder) ==> effects == []
      ensures fs.isDir(sourceFolder) ==>
        var entries := fs.listDir(sourceFolder);
        var outputDir := CreateOutputFolder(stamp);
        1 <= |effects| <= |entries| + 1 && effects[0] == MakeDirs(outputDir) &&
        (forall k :: 0 <= k < |effects| - 1 ==>
           SaveFor(Join(sourceFolder, entries[k]), outputDir, codec, targetSize) == Some(effects[k + 1])) &&
        (outcome == Completed <==> |effects| == |entries| + 1) &&
        (outcome != Completed ==>
           var failed := Join(sourceFolder, entries[|effects| - 1]);
           outcome == OpenFailed(failed) && SaveFor(failed, outputDir, codec, targetSize) == None)
    {
      if !fs.isDir(sourceFolder) {
        return InvalidSourceFolder, [];
      }
      var outputDir := CreateOutputFolder(stamp);
      effects := [MakeDirs(outputDir)];
      var entries := fs.listDir(sourceFolder);
      outcome := Completed;
      for i := 0 to |entries|
        invariant |effects| == i + 1 && effects[0] == MakeDirs(outputDir)
        invariant forall k :: 0 <= k < i ==>
          SaveFor(Join(sourceFolder, entries[k]), outputDir, codec, targetSize) == Some(effects[k + 1])
      {
        var imagePath := Join(sourceFolder, entries[i]);
        var saved := ProcessSingleImage(imagePath, outputDir, codec);
        if saved.None? {
          outcome := OpenFailed(imagePath);
          break;
        }
        effects := effects + [saved.value];
      }
    }
  }
}
