/**
 * backend/newer.py: predict on one image, and when the first pass is dense
 * (at least 100 records) crop the image above the topmost bottom edge, predict
 * again on the crop and append those records; then append every record to
 * the detection log `info.txt`.
 */
module BackendNewer {
  import opened Wrappers
  import opened Text
  import opened PyPath
  import opened Drawing
  import opened Detections
  import opened DetectionLog

  /** `os.path.join(os.path.dirname(path), base_name + "_c.jpg")`: the crop is saved beside its source. */
  function CroppedPath(imagePath: string): string {
    Join(Dirname(imagePath), Stem(imagePath) + "_c.jpg")
  }

  /** The cropped file is called after the source's stem with "_c.jpg", whatever the source's extension. */
  lemma CroppedPathName(imagePath: string)
    ensures Basename(CroppedPath(imagePath)) == Stem(imagePath) + "_c.jpg"
  {
    var name := Stem(imagePath) + "_c.jpg";
    var b := Basename(imagePath);
    assert Stem(imagePath) == b[..|SplitExt(b).0|];
    assert NoSep(name);
    BasenameOfJoin(Dirname(imagePath), name);
  }

  /** `crop(image_path, predictions)`: the saved file's path, and the box handed to `image.crop`. */
  method Crop(imagePath: string, preds: seq<Prediction>) returns (croppedPath: string, box: Region)
    ensures croppedPath == CroppedPath(imagePath)
    ensures box == CropRegion(CropRow(preds))
  {
    var highest := CropHeight(preds);
    croppedPath := Join(Dirname(imagePath), Stem(imagePath) + "_c.jpg");
    box := CropRegion(highest);
  }

  /** `compile_data`: opens `info.txt` in append mode and writes one line per record. */
  method CompileData(log: LogFile, imagePath: string, preds: seq<Prediction>)
    modifies log
    ensures log.content == old(log.content) + LogText(ConfidenceFirst, Stem(imagePath), preds)
  {
    WriteLines(log, ConfidenceFirst, Stem(imagePath), preds);
  }

  /** The records `main` logs, or `None` when an image fails to open. */
  function MainRecords(imagePath: string, detect: string -> Option<DetectorOutput>): Option<seq<Prediction>>
    requires WellFormedDetector(detect)
  {
    TwoPass(detect, imagePath, CroppedPath(imagePath))
  }

  /**
   * `main`: the first pass, the refinement when it is dense, and the log.
   * The display step is left out. When an image fails to open the script
   * stops before writing anything.
   */
  method RunMain(imagePath: string, detect: string -> Option<DetectorOutput>, log: LogFile)
      returns (logged: Option<seq<Prediction>>)
    requires WellFormedDetector(detect)
    modifies log
    ensures logged == MainRecords(imagePath, detect)
    ensures logged.None? ==> log.content == old(log.content)
    ensures logged.Some? ==>
      log.content == old(log.content) + LogText(ConfidenceFirst, Stem(imagePath), logged.value)
  {
    var out := detect(imagePath);
    if out.None? {
      return None;
    }
    var allPredictions := Predict(out.value);
    if |allPredictions| >= DenseCount {
      var croppedPath, box := Crop(imagePath, allPredictions);
      var out2 := detect(croppedPath);
      if out2.None? {
        return None;
      }
      var croppedPredictions := Predict(out2.value);
      allPredictions := allPredictions + croppedPredictions;
    }
    CompileData(log, imagePath, allPredictions);
    logged := Some(allPredictions);
  }

  /**
   * What one run adds to the log: the first pass's lines and, on a dense
   * scene, the crop pass's lines after them; on a sparse scene the first
   * pass's lines alone.
   */
  lemma MainLogSplits(imagePath: string, detect: string -> Option<DetectorOutput>)
    requires WellFormedDetector(detect)
    requires detect(imagePath).Some?
    ensures var first := Records(detect(imagePath).value);
      var name := Stem(imagePath);
      var r := MainRecords(imagePath, detect);
      r.Some? ==>
        LogText(ConfidenceFirst, name, r.value) ==
          LogText(ConfidenceFirst, name, first)
          + (if |first| >= DenseCount then LogText(ConfidenceFirst, name, Records(detect(CroppedPath(imagePath)).value)) else "")
  {
    var first := Records(detect(imagePath).value);
    var name := Stem(imagePath);
    if |first| >= DenseCount && detect(CroppedPath(imagePath)).Some? {
      LogTextAppend(ConfidenceFirst, name, first, Records(detect(CroppedPath(imagePath)).value));
    } else if |first| < DenseCount {
      assert LogText(ConfidenceFirst, name, first) + "" == LogText(ConfidenceFirst, name, first);
    }
  }
}
