/**
 * model/newer.py: the same two-pass rule as backend/newer.py, written as a
 * script around one module-level `predictions` list that `predict` only
 * ever appends to, `crop` scans and `compile_data` writes out, opening
 * `info.txt` with "w" so that earlier content is discarded.
 */
module ModelNewer {
  import opened Wrappers
  import opened PyPath
  import opened Drawing
  import opened Detections
  import opened DetectionLog

  /** The fixed directory the cropped image is saved to. */
  const CroppedDir: string := "C:\\Users\\rayta\\Documents\\AIC\\parking_dataset\\Cropped_Images"

  function CroppedPath(imagePath: string): string {
    Join(CroppedDir, Stem(imagePath) + "_c.jpg")
  }

  /** The script's module state: the global `predictions` list. */
  class Script {
    var predictions: seq<Prediction>

    /** `predictions = []` at import time. */
    constructor ()
      ensures predictions == []
    {
      predictions := [];
    }

    /** `predict(image_path)`: appends one record per detector box to the global list. */
    method Predict(out: DetectorOutput)
      requires Indexable(out)
      modifies this
      ensures predictions == old(predictions) + Records(out)
    {
      var i := 0;
      while i < |out.boxes|
        invariant 0 <= i <= |out.boxes|
        invariant predictions == old(predictions) + Records(out)[..i]
      {
        predictions := predictions + [Prediction(out.boxes[i], out.labels[i], out.scores[i])];
        i := i + 1;
      }
    }

    /** `crop(image_path)`: the topmost bottom edge over the whole global list. */
    method Crop(imagePath: string) returns (croppedPath: string, box: Region)
      ensures croppedPath == CroppedPath(imagePath)
      ensures box == CropRegion(CropRow(predictions))
    {
      var highest := CropHeight(predictions);
      croppedPath := Join(CroppedDir, Stem(imagePath) + "_c.jpg");
      box := CropRegion(highest);
    }

    /** `compile_data(image_path)`: the file afterwards holds exactly one line per global record. */
    method CompileData(imagePath: string, log: LogFile)
      modifies log
      ensures log.content == LogText(TensorConfidenceFirst, Stem(imagePath), predictions)
    {
      log.OpenForWrite();
      WriteLines(log, TensorConfidenceFirst, Stem(imagePath), predictions);
    }
  }

  /**
   * The script body: `predict`, the second pass when the list holds at
   * least 100 records, and `compile_data`. When an image fails to open the
   * script stops before `info.txt` is opened. The display step is left out.
   */
  method RunScript(imagePath: string, detect: string -> Option<DetectorOutput>, log: LogFile)
      returns (logged: Option<seq<Prediction>>)
    requires WellFormedDetector(detect)
    modifies log
    ensures logged == TwoPass(detect, imagePath, CroppedPath(imagePath))
    ensures logged.None? ==> log.content == old(log.content)
    ensures logged.Some? ==> log.content == LogText(TensorConfidenceFirst, Stem(imagePath), logged.value)
  {
    var script := new Script();
    var out := detect(imagePath);
    if out.None? {
      return None;
    }
    script.Predict(out.value);
    ghost var first := Records(out.value);
    assert script.predictions == first;
    if |script.predictions| >= DenseCount {
      var croppedPath, box := script.Crop(imagePath);
      var out2 := detect(croppedPath);
      if out2.None? {
        return None;
      }
      script.Predict(out2.value);
      assert script.predictions == Refined(first, Records(out2.value));
    } else {
      assert script.predictions == Refined(first, []);
    }
    ghost var all := script.predictions;
    assert TwoPass(detect, imagePath, CroppedPath(imagePath)) == Some(all);
    script.CompileData(imagePath, log);
    logged := Some(script.predictions);
  }
}
