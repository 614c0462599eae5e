/**
 * What the Faster R-CNN detector hands back, the per-box records the scripts
 * build from it, and the dense-scene crop rule that backend/newer.py and
 * model/newer.py share.
 */
module Detections {
  import opened Wrappers
  import opened Drawing

  /** A detector box in pixel coordinates, as floats. */
  datatype Box = Box(xMin: real, yMin: real, xMax: real, yMax: real)

  /**
   * A detector score: its value, how Python prints it after `float(...)`,
   * and how it prints while still a tensor element. The printed forms are
   * opaque tokens of the floating-point formatter.
   */
  datatype Score = Score(value: real, floatText: string, tensorText: string)

  /** The fields `boxes`, `labels` and `scores` of the detector's first result. */
  datatype DetectorOutput = DetectorOutput(boxes: seq<Box>, labels: seq<int>, scores: seq<Score>)

  /** The record `{"box": ..., "label": ..., "confidence": ...}` built per box. */
  datatype Prediction = Prediction(box: Box, labelId: int, confidence: Score)

  /** The crop height the scan starts from, the crop width, and the margin added below. */
  const StartHeight: int := 640
  const CropWidth: int := 640
  const CropMargin: int := 10

  /** Refinement runs when the first pass yields at least this many records. */
  const DenseCount: nat := 100

  /** Python `int(x)` on a float: truncation toward zero. */
  function Trunc(r: real): (n: int)
    ensures r >= 0.0 ==> n as real <= r < n as real + 1.0
    ensures r < 0.0 ==> n as real - 1.0 < r <= n as real
  {
    if r >= 0.0 then r.Floor else -((-r).Floor)
  }

  /** `labels[i]` and `scores[i]` exist for every box index. */
  predicate Indexable(out: DetectorOutput) {
    |out.labels| >= |out.boxes| && |out.scores| >= |out.boxes|
  }

  /**
   * The detector as the scripts see it: the image at a path either yields
   * an output whose labels and scores cover every box, or fails to open
   * (`None`, `Image.open` raising).
   */
  ghost predicate WellFormedDetector(detect: string -> Option<DetectorOutput>) {
    forall p :: detect(p).Some? ==> Indexable(detect(p).value)
  }

  /** One record per detector box, in detector order, with no filtering. */
  function Records(out: DetectorOutput): seq<Prediction>
    requires Indexable(out)
  {
    seq(|out.boxes|, i requires 0 <= i < |out.boxes| =>
      Prediction(out.boxes[i], out.labels[i], out.scores[i]))
  }

  /** The `for i, box in enumerate(boxes)` loop of `predict`. */
  method Predict(out: DetectorOutput) returns (preds: seq<Prediction>)
    requires Indexable(out)
    ensures preds == Records(out)
  {
    preds := [];
    var i := 0;
    while i < |out.boxes|
      invariant 0 <= i <= |out.boxes|
      invariant preds == Records(out)[..i]
    {
      preds := preds + [Prediction(out.boxes[i], out.labels[i], out.scores[i])];
      i := i + 1;
    }
  }

  /**
   * The `highest` that `crop` computes: start at 640 and take every
   * truncated `y_max` that is smaller. It is the topmost bottom edge of all
   * records (smallest y), not the lowest one, and it looks at no confidence.
   */
  function CropRow(preds: seq<Prediction>): (h: int)
    ensures h <= StartHeight
    ensures forall i :: 0 <= i < |preds| ==> h <= Trunc(preds[i].box.yMax)
    ensures h == StartHeight || exists i :: 0 <= i < |preds| && h == Trunc(preds[i].box.yMax)
    decreases |preds|
  {
    if preds == [] then StartHeight
    else
      var h := CropRow(preds[..|preds| - 1]);
      var y := Trunc(preds[|preds| - 1].box.yMax);
      if y < h then y else h
  }

  /** The loop of `crop` that updates `highest`. */
  method CropHeight(preds: seq<Prediction>) returns (highest: int)
    ensures highest == CropRow(preds)
  {
    highest := StartHeight;
    for i := 0 to |preds|
      invariant highest == CropRow(preds[..i])
    {
      var yMax := Trunc(preds[i].box.yMax);
      if yMax < highest {
        highest := yMax;
      }
      assert preds[..i + 1][..i] == preds[..i];
    }
    assert preds[..|preds|] == preds;
  }

  /** The box handed to `image.crop`: full fixed width, from the top down to `highest + 10`. */
  function CropRegion(highest: int): (r: Region)
    ensures r.left == 0 && r.upper == 0 && r.right == CropWidth
    ensures r.lower - r.upper == highest + CropMargin
  {
    Region(0, 0, CropWidth, highest + CropMargin)
  }

  /** The crop height reads nothing but the truncated bottom edges: x, y_min, labels and scores do not matter. */
  lemma {:induction false} CropRowOnlyReadsBottoms(a: seq<Prediction>, b: seq<Prediction>)
    requires |a| == |b|
    requires forall i :: 0 <= i < |a| ==> Trunc(a[i].box.yMax) == Trunc(b[i].box.yMax)
    ensures CropRow(a) == CropRow(b)
    decreases |a|
  {
    if a != [] {
      CropRowOnlyReadsBottoms(a[..|a| - 1], b[..|b| - 1]);
    }
  }

  /**
   * `main` of backend/newer.py and the script of model/newer.py: the crop
   * pass's records are appended after the first pass's when the first pass
   * is dense, and otherwise the first pass stands alone.
   */
  function Refined(first: seq<Prediction>, second: seq<Prediction>): (r: seq<Prediction>)
    ensures |first| >= DenseCount ==> |r| == |first| + |second| && r[..|first|] == first && r[|first|..] == second
    ensures |first| < DenseCount ==> r == first
  {
    if |first| >= DenseCount then first + second else first
  }

  /**
   * The records of a run that predicts on `imagePath` and, when that pass
   * is dense, on the crop saved at `croppedPath`; `None` when an image
   * fails to open.
   */
  function TwoPass(detect: string -> Option<DetectorOutput>, imagePath: string, croppedPath: string)
    : Option<seq<Prediction>>
    requires WellFormedDetector(detect)
  {
    match detect(imagePath)
    case None => None
    case Some(out) =>
      var first := Records(out);
      if |first| >= DenseCount then
        match detect(croppedPath)
        case None => None
        case Some(out2) => Some(Refined(first, Records(out2)))
      else Some(Refined(first, []))
  }
}
