/**
 * model/ModelTest.py: split an image into a top and a bottom half, predict
 * on each half, draw the predictions of each half that has any, and paste
 * the annotated halves back together one below the other.
 */
module ModelTest {
  import opened Wrappers
  import opened Text
  import opened PyPath
  import opened Drawing
  import opened Detections
  import DrawBoxesFromTxt

  /** The two crops `split_image_into_thirds` saves, top first. */
  datatype Halves = Halves(topPath: string, bottomPath: string, top: Region, bottom: Region)

  function RegionHeight(r: Region): int {
    r.lower - r.upper
  }

  /**
   * `split_image_into_thirds` on an image of `width` by `height` pixels:
   * despite its name it cuts at `height // 2`, so the two crops tile the
   * image; the bottom one takes the odd row.
   */
  function SplitImage(imagePath: string, outputDir: string, width: nat, height: nat): (s: Halves)
    ensures s.top.left == 0 && s.bottom.left == 0 && s.top.right == width && s.bottom.right == width
    ensures s.top.upper == 0 && s.top.lower == s.bottom.upper && s.bottom.lower == height
    ensures RegionHeight(s.top) + RegionHeight(s.bottom) == height
    ensures 0 <= RegionHeight(s.bottom) - RegionHeight(s.top) <= 1
    ensures Basename(s.topPath) == Stem(imagePath) + "_top.jpg"
    ensures Basename(s.bottomPath) == Stem(imagePath) + "_bottom.jpg"
    ensures s.topPath == Join(outputDir, Stem(imagePath) + "_top.jpg")
    ensures s.bottomPath == Join(outputDir, Stem(imagePath) + "_bottom.jpg")
  {
    var halfHeight := height / 2;
    var baseName := Stem(imagePath);
    StemNoSep(imagePath);
    NoSepAppend(baseName, "_top.jpg");
    NoSepAppend(baseName, "_bottom.jpg");
    BasenameOfJoin(outputDir, baseName + "_top.jpg");
    BasenameOfJoin(outputDir, baseName + "_bottom.jpg");
    Halves(Join(outputDir, baseName + "_top.jpg"), Join(outputDir, baseName + "_bottom.jpg"),
           Region(0, 0, width, halfHeight), Region(0, halfHeight, width, height))
  }

  lemma HalfNamesDiffer(stem: string)
    ensures stem + "_top.jpg" != stem + "_bottom.jpg"
  {
    assert (stem + "_top.jpg")[|stem| + 1] == 't';
    assert (stem + "_bottom.jpg")[|stem| + 1] == 'b';
  }

  /** The two names differ, so neither half overwrites the other. */
  lemma HalvesDistinct(imagePath: string, outputDir: string, width: nat, height: nat)
    ensures SplitImage(imagePath, outputDir, width, height).topPath
      != SplitImage(imagePath, outputDir, width, height).bottomPath
  {
    HalfNamesDiffer(Stem(imagePath));
  }

  /** One entry `{"box": box.tolist(), "Label": label.item()}`. */
  datatype BoxLabel = BoxLabel(box: Box, labelId: int)

  /** `zip(boxes, labels)`: as many entries as the shorter of the two lists. */
  function Zipped(out: DetectorOutput): (r: seq<BoxLabel>)
    ensures |r| == if |out.boxes| <= |out.labels| then |out.boxes| else |out.labels|
    ensures forall i :: 0 <= i < |r| ==> r[i] == BoxLabel(out.boxes[i], out.labels[i])
  {
    var n := if |out.boxes| <= |out.labels| then |out.boxes| else |out.labels|;
    seq(n, i requires 0 <= i < n => BoxLabel(out.boxes[i], out.labels[i]))
  }

  /** The dictionary `predict_images` returns, or `None` when an image fails to open. */
  function PredictAll(detect: string -> Option<DetectorOutput>, paths: seq<string>)
    : Option<map<string, seq<BoxLabel>>>
    decreases |paths|
  {
    if paths == [] then Some(map[])
    else
      var n := |paths| - 1;
      match PredictAll(detect, paths[..n])
      case None => None
      case Some(m) =>
        match detect(paths[n])
        case None => None
        case Some(out) => Some(m[paths[n] := Zipped(out)])
  }

  /** The loop of `predict_images`. */
  method PredictImages(detect: string -> Option<DetectorOutput>, imagePaths: seq<string>)
      returns (r: Option<map<string, seq<BoxLabel>>>)
    ensures r == PredictAll(detect, imagePaths)
  {
    var predictions: map<string, seq<BoxLabel>> := map[];
    for i := 0 to |imagePaths|
      invariant PredictAll(detect, imagePaths[..i]) == Some(predictions)
    {
      assert imagePaths[..i + 1][..i] == imagePaths[..i];
      var out := detect(imagePaths[i]);
      if out.None? {
        PredictAllNonePersists(detect, imagePaths, i + 1);
        return None;
      }
      predictions := predictions[imagePaths[i] := Zipped(out.value)];
    }
    assert imagePaths[..|imagePaths|] == imagePaths;
    r := Some(predictions);
  }

  lemma {:induction false} PredictAllNonePersists(detect: string -> Option<DetectorOutput>, paths: seq<string>, i: nat)
    requires i <= |paths| && PredictAll(detect, paths[..i]).None?
    ensures PredictAll(detect, paths).None?
    decreases |paths| - i
  {
    if i < |paths| {
      assert paths[..i + 1][..i] == paths[..i];
      PredictAllNonePersists(detect, paths, i + 1);
    } else {
      assert paths[..i] == paths;
    }
  }

  /**
   * `predict_images` succeeds exactly when every image opens; its keys are
   * then the input paths and each path maps to its detector output zipped
   * into entries, in detector order.
   */
  lemma {:induction false} PredictAllContents(detect: string -> Option<DetectorOutput>, paths: seq<string>)
    ensures PredictAll(detect, paths).Some? <==> forall i :: 0 <= i < |paths| ==> detect(paths[i]).Some?
    ensures PredictAll(detect, paths).Some? ==>
      (forall p :: p in PredictAll(detect, paths).value <==> p in paths)
      && forall p :: p in PredictAll(detect, paths).value ==> PredictAll(detect, paths).value[p] == Zipped(detect(p).value)
    decreases |paths|
  {
    if paths != [] {
      var n := |paths| - 1;
      var prefix := paths[..n];
      PredictAllContents(detect, prefix);
      assert forall i :: 0 <= i < n ==> prefix[i] == paths[i];
      assert paths == prefix + [paths[n]];
      if PredictAll(detect, paths).Some? {
        assert PredictAll(detect, prefix).Some?;
      }
    }
  }

  /** The two branches of `draw_predictions`: green for the label string "1", red otherwise. */
  function PredictionCommands(p: BoxLabel): seq<DrawCommand> {
    var xMin, yMin, xMax, yMax := Trunc(p.box.xMin), Trunc(p.box.yMin), Trunc(p.box.xMax), Trunc(p.box.yMax);
    var labelText := IntToString(p.labelId);
    if labelText == "1" then
      [Rectangle(Point(xMin, yMin), Point(xMax, yMax), Color(0, 255, 0), 2),
       PutText(labelText, Point(xMin, yMin - 5), 0.5, Color(0, 255, 0), 1)]
    else
      [Rectangle(Point(xMin, yMin), Point(xMax, yMax), Color(255, 0, 0), 2),
       PutText(labelText, Point(xMin, yMin - 5), 0.5, Color(255, 0, 0), 1)]
  }

  function DrawingCommands(ps: seq<BoxLabel>): (r: seq<DrawCommand>)
    ensures |r| == 2 * |ps|
    decreases |ps|
  {
    if ps == [] then []
    else DrawingCommands(ps[..|ps| - 1]) + PredictionCommands(ps[|ps| - 1])
  }

  /** `draw_predictions` drawing into the image it read. */
  method DrawPredictions(image: Canvas, predictions: seq<BoxLabel>)
    modifies image
    ensures image.marks == old(image.marks) + DrawingCommands(predictions)
  {
    for i := 0 to |predictions|
      invariant image.marks == old(image.marks) + DrawingCommands(predictions[..i])
    {
      var cmds := PredictionCommands(predictions[i]);
      image.Draw(cmds[0]);
      image.Draw(cmds[1]);
      assert predictions[..i + 1][..i] == predictions[..i];
    }
    assert predictions[..|predictions|] == predictions;
  }

  function AsLoaded(ps: seq<BoxLabel>): (r: seq<DrawBoxesFromTxt.Loaded>)
    ensures |r| == |ps|
  {
    seq(|ps|, i requires 0 <= i < |ps| => DrawBoxesFromTxt.Loaded(ps[i].box, ps[i].labelId))
  }

  lemma PredictionCommandsAgree(p: BoxLabel)
    ensures PredictionCommands(p) == DrawBoxesFromTxt.RecordCommands(DrawBoxesFromTxt.Loaded(p.box, p.labelId))
  {
    IntToStringIsOne(p.labelId);
  }

  /** The two-branch drawing of this script draws exactly what model/DrawBoxesFromTxt.py draws for the same records. */
  lemma {:induction false} SameDrawingAsDrawBoxes(ps: seq<BoxLabel>)
    ensures DrawingCommands(ps) == DrawBoxesFromTxt.Annotations(AsLoaded(ps))
    decreases |ps|
  {
    if ps != [] {
      var n := |ps| - 1;
      var loaded := AsLoaded(ps);
      SameDrawingAsDrawBoxes(ps[..n]);
      assert loaded[..n] == AsLoaded(ps[..n]);
      assert loaded[n] == DrawBoxesFromTxt.Loaded(ps[n].box, ps[n].labelId);
      PredictionCommandsAgree(ps[n]);
      assert DrawingCommands(ps) == DrawingCommands(ps[..n]) + PredictionCommands(ps[n]);
      assert DrawBoxesFromTxt.Annotations(loaded)
        == DrawBoxesFromTxt.Annotations(loaded[..n]) + DrawBoxesFromTxt.RecordCommands(loaded[n]);
    }
  }

  /** `f"{base_name}_annotated{ext}"` with `os.path.splitext(img_path)`. */
  function AnnotatedPath(imgPath: string): string {
    var (baseName, ext) := SplitExt(imgPath);
    baseName + "_annotated" + ext
  }

  /** The annotate loop draws an image only when `predictions` has a non-empty list for it. */
  predicate Drawn(predictions: map<string, seq<BoxLabel>>, imgPath: string) {
    imgPath in predictions && predictions[imgPath] != []
  }

  /** The `(image, annotated path)` pairs the main loop draws, in order. */
  function AnnotationPlan(imgPaths: seq<string>, predictions: map<string, seq<BoxLabel>>): seq<(string, string)>
    decreases |imgPaths|
  {
    if imgPaths == [] then []
    else
      var n := |imgPaths| - 1;
      AnnotationPlan(imgPaths[..n], predictions)
        + (if Drawn(predictions, imgPaths[n]) then [(imgPaths[n], AnnotatedPath(imgPaths[n]))] else [])
  }

  /** The `for img_path in cropped_images` loop, returning the drawings it makes. */
  method AnnotateAll(imgPaths: seq<string>, predictions: map<string, seq<BoxLabel>>)
      returns (drawn: seq<(string, string)>)
    ensures drawn == AnnotationPlan(imgPaths, predictions)
  {
    drawn := [];
    for i := 0 to |imgPaths|
      invariant drawn == AnnotationPlan(imgPaths[..i], predictions)
    {
      var imgPath := imgPaths[i];
      var annotatedPath := AnnotatedPath(imgPath);
      if imgPath in predictions && predictions[imgPath] != [] {
        drawn := drawn + [(imgPath, annotatedPath)];
      }
      assert imgPaths[..i + 1][..i] == imgPaths[..i];
    }
    assert imgPaths[..|imgPaths|] == imgPaths;
  }

  /** Each drawing is of an input image with predictions under its annotated name, and every such image is drawn. */
  lemma {:induction false} AnnotationPlanContents(imgPaths: seq<string>, predictions: map<string, seq<BoxLabel>>)
    ensures forall d :: d in AnnotationPlan(imgPaths, predictions) ==>
      d.0 in imgPaths && Drawn(predictions, d.0) && d.1 == AnnotatedPath(d.0)
    ensures forall p :: p in imgPaths && Drawn(predictions, p) ==> (p, AnnotatedPath(p)) in AnnotationPlan(imgPaths, predictions)
    decreases |imgPaths|
  {
    if imgPaths != [] {
      var n := |imgPaths| - 1;
      var prefix := imgPaths[..n];
      AnnotationPlanContents(prefix, predictions);
      assert imgPaths == prefix + [imgPaths[n]];
    }
  }

  /** `img.replace(".jpg", "_annotated.jpg")`, the names the merge opens. */
  function MergeInput(imgPath: string): string {
    ReplaceAll(imgPath, ".jpg", "_annotated.jpg")
  }

  /**
   * For a path ending in ".jpg" with no other ".jpg" in it, the name the
   * merge opens is the name the annotate loop wrote.
   */
  lemma AnnotatedNamesAgree(s: string)
    requires |s| > 0 && s[|s| - 1] != '.' && !IsSep(s[|s| - 1])
    requires forall i :: 0 <= i < |s| ==> !OccursAt(s + ".jpg", i, ".jpg")
    ensures AnnotatedPath(s + ".jpg") == s + "_annotated.jpg"
    ensures MergeInput(s + ".jpg") == s + "_annotated.jpg"
  {
    assert s + ".jpg" == s + "." + "jpg";
    SplitExtOfSuffix(s, "jpg");
    ReplaceAllSuffix(s, ".jpg", "_annotated.jpg");
  }

  datatype Size = Size(width: nat, height: nat)

  /** The merged image: its size and the point at which each input is pasted. */
  datatype MergePlan = MergePlan(width: nat, height: nat, pastes: seq<Point>)

  /** `sum(img.height for img in images)`. */
  function SumHeights(sizes: seq<Size>): nat
    decreases |sizes|
  {
    if sizes == [] then 0 else SumHeights(sizes[..|sizes| - 1]) + sizes[|sizes| - 1].height
  }

  /**
   * `merge_images` on images of the given sizes: `None` is the `IndexError`
   * of `images[0]` on an empty list. Otherwise the canvas is as wide as the
   * first image and as tall as all of them, and image `i` is pasted at the
   * left edge, below all the images before it.
   */
  method MergeImages(sizes: seq<Size>) returns (r: Option<MergePlan>)
    ensures r.None? <==> sizes == []
    ensures r.Some? ==> r.value.width == sizes[0].width && r.value.height == SumHeights(sizes)
    ensures r.Some? ==> (|r.value.pastes| == |sizes|
      && forall i :: 0 <= i < |sizes| ==> r.value.pastes[i] == Point(0, SumHeights(sizes[..i])))
  {
    var totalHeight := SumHeights(sizes);
    if sizes == [] {
      return None;
    }
    var width := sizes[0].width;
    var pastes: seq<Point> := [];
    var yOffset := 0;
    for i := 0 to |sizes|
      invariant yOffset == SumHeights(sizes[..i])
      invariant |pastes| == i && forall k :: 0 <= k < i ==> pastes[k] == Point(0, SumHeights(sizes[..k]))
    {
      pastes := pastes + [Point(0, yOffset)];
      assert sizes[..i + 1][..i] == sizes[..i];
      yOffset := yOffset + sizes[i].height;
    }
    r := Some(MergePlan(width, totalHeight, pastes));
  }

  /** Consecutive pastes touch: each image starts where the previous one ends, and the last one ends at the bottom. */
  lemma MergeTiles(sizes: seq<Size>, i: nat)
    requires i < |sizes|
    ensures SumHeights(sizes[..i]) + sizes[i].height == SumHeights(sizes[..i + 1])
    ensures i == |sizes| - 1 ==> SumHeights(sizes[..i]) + sizes[i].height == SumHeights(sizes)
  {
    assert sizes[..i + 1][..i] == sizes[..i];
    if i == |sizes| - 1 {
      assert sizes[..i + 1] == sizes;
    }
  }

  /** Merging the two halves of a split gives back the original size, bottom half pasted at `height // 2`. */
  lemma MergeOfHalves(imagePath: string, outputDir: string, width: nat, height: nat)
    ensures var s := SplitImage(imagePath, outputDir, width, height);
      var sizes := [Size(width, RegionHeight(s.top)), Size(width, RegionHeight(s.bottom))];
      SumHeights(sizes) == height && SumHeights(sizes[..1]) == height / 2
  {
    var s := SplitImage(imagePath, outputDir, width, height);
    var sizes := [Size(width, RegionHeight(s.top)), Size(width, RegionHeight(s.bottom))];
    var first := sizes[..1];
    assert first == [sizes[0]] && first[..0] == [];
    assert SumHeights(first) == sizes[0].height;
    assert sizes[..|sizes| - 1] == first;
    assert SumHeights(sizes) == sizes[0].height + sizes[1].height;
  }
}
