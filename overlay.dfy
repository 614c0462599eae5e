/**
 * backend/parking_spot_overlay.py: the drawing plan `draw_detections` lays
 * over an image (one outline, one label background and one label per
 * detection at or above the threshold, then a summary line), the counts of
 * that summary, and the fall-backs of `draw_detections` and
 * `create_overlay_image` when OpenCV fails.
 */
module Overlay {
  import opened Wrappers
  import opened Text
  import opened Drawing

  /** `detection['bbox']`, in integer pixels. */
  datatype BBox = BBox(xMin: int, yMin: int, xMax: int, yMax: int)

  /** One detection dictionary: `class_id`, `confidence` and `bbox`. */
  datatype Detection = Detection(classId: int, confidence: real, bbox: BBox)

  /** The colour triples of the table, in the BGR order OpenCV takes them. */
  const FilledColor: Color := Color(0, 0, 255)
  const EmptyColor: Color := Color(0, 255, 0)
  const OtherColor: Color := Color(255, 165, 0)
  const DefaultColor: Color := Color(255, 255, 0)
  const White: Color := Color(255, 255, 255)

  /** The default of `confidence_threshold` in both methods. */
  const DefaultThreshold: real := 0.5

  /** The class id the label and the summary call Filled. */
  const FilledClass: int := 1

  /** The state `__init__` gives the overlay object: the colour table and the fallback colour. */
  datatype ParkingSpotOverlay = ParkingSpotOverlay(colors: map<int, Color>, defaultColor: Color)

  /** `ParkingSpotOverlay()`. */
  function NewOverlay(): ParkingSpotOverlay {
    ParkingSpotOverlay(map[1 := FilledColor, 2 := EmptyColor, 3 := OtherColor], DefaultColor)
  }

  /** `self.colors.get(class_id, self.default_color)`. */
  function ColorOf(o: ParkingSpotOverlay, classId: int): Color {
    if classId in o.colors then o.colors[classId] else o.defaultColor
  }

  /** A fresh overlay colours ids 1, 2 and 3 from its table and every other id in the default colour (255, 255, 0). */
  lemma NewOverlayColors(classId: int)
    ensures classId == 1 ==> ColorOf(NewOverlay(), classId) == FilledColor
    ensures classId == 2 ==> ColorOf(NewOverlay(), classId) == EmptyColor
    ensures classId == 3 ==> ColorOf(NewOverlay(), classId) == OtherColor
    ensures classId !in {1, 2, 3} ==> ColorOf(NewOverlay(), classId) == DefaultColor
  {
  }

  /**
   * What the drawing code needs from OpenCV and from Python's formatter,
   * none of which the model computes: the pixel size of a label, the
   * two-decimal form of a score, whether a drawing call goes through
   * (`false` where it raises), and the JPEG decoder and encoder.
   */
  datatype Library = Library(
    textSize: string -> (int, int),
    format2: real -> string,
    accepts: DrawCommand -> bool,
    decode: seq<bv8> -> Option<Picture>,
    encode: Picture -> Option<seq<bv8>>)

  /** `f"{'Filled' if class_id == 1 else 'Empty'}: {confidence:.2f}"`. */
  function LabelText(classId: int, confidence: real, lib: Library): string {
    (if classId == FilledClass then "Filled" else "Empty") + ": " + lib.format2(confidence)
  }

  /** Only class 1 is labelled Filled; 2, 3 and every unknown id are labelled Empty. */
  lemma LabelNamesClass(classId: int, confidence: real, lib: Library)
    ensures var t := LabelText(classId, confidence, lib);
      (|t| >= 8 && t[..8] == "Filled: ") <==> classId == FilledClass
    ensures var t := LabelText(classId, confidence, lib);
      classId != FilledClass ==> |t| >= 7 && t[..7] == "Empty: "
  {
    var t := LabelText(classId, confidence, lib);
    if classId == FilledClass {
      assert t == "Filled: " + lib.format2(confidence);
    } else {
      assert t == "Empty: " + lib.format2(confidence);
      assert t[0] == 'E';
    }
  }

  /**
   * The three calls drawn for one detection: the box outline (thickness 2),
   * the label background filled in the same colour, and the white label.
   */
  function DetectionCommands(o: ParkingSpotOverlay, d: Detection, lib: Library): (r: seq<DrawCommand>)
    ensures |r| == 3
    ensures r[0] == Rectangle(Point(d.bbox.xMin, d.bbox.yMin), Point(d.bbox.xMax, d.bbox.yMax), ColorOf(o, d.classId), 2)
    ensures r[1].Rectangle? && r[1].thickness == Filled && r[1].color == r[0].color
    ensures var size := lib.textSize(LabelText(d.classId, d.confidence, lib));
      var w := size.0;
      var h := size.1;
      && r[1].corner1 == Point(d.bbox.xMin, d.bbox.yMin - h - 10)
      && r[1].corner2 == Point(d.bbox.xMin + w, d.bbox.yMin)
    ensures r[2] == PutText(LabelText(d.classId, d.confidence, lib), Point(d.bbox.xMin, d.bbox.yMin - 5), 0.5, White, 1)
  {
    var color := ColorOf(o, d.classId);
    var caption := LabelText(d.classId, d.confidence, lib);
    var size := lib.textSize(caption);
    var w := size.0;
    var h := size.1;
    [Rectangle(Point(d.bbox.xMin, d.bbox.yMin), Point(d.bbox.xMax, d.bbox.yMax), color, 2),
     Rectangle(Point(d.bbox.xMin, d.bbox.yMin - h - 10), Point(d.bbox.xMin + w, d.bbox.yMin), color, Filled),
     PutText(caption, Point(d.bbox.xMin, d.bbox.yMin - 5), 0.5, White, 1)]
  }

  /**
   * The label geometry: the background sits on the box's top edge, starts at
   * its left edge and is as wide as the label and 10 pixels taller; the label
   * starts at the box's left edge, 5 pixels above it, and for a label of
   * non-negative height that is inside the background's rows.
   */
  lemma LabelGeometry(o: ParkingSpotOverlay, d: Detection, lib: Library)
    ensures var r := DetectionCommands(o, d, lib);
      var size := lib.textSize(LabelText(d.classId, d.confidence, lib));
      var w := size.0;
      var h := size.1;
      && r[1].corner2.y == r[0].corner1.y && r[1].corner1.x == r[0].corner1.x
      && r[1].corner2.x - r[1].corner1.x == w && r[1].corner2.y - r[1].corner1.y == h + 10
      && r[2].origin.x == r[0].corner1.x && r[2].origin.y == r[0].corner1.y - 5
      && (h >= -5 ==> r[1].corner1.y <= r[2].origin.y <= r[1].corner2.y)
  {
  }

  /** Called with its default threshold, either method keeps a detection exactly when its confidence is at least 0.5. */
  lemma DefaultThresholdKeeps(d: Detection)
    ensures Kept([d], DefaultThreshold) == (if d.confidence >= 0.5 then [d] else [])
  {
  }

  /** The detections `draw_detections` draws: those whose confidence is not below the threshold, in list order. */
  function Kept(ds: seq<Detection>, threshold: real): (r: seq<Detection>)
    ensures |r| <= |ds|
    ensures forall d :: d in r <==> d in ds && d.confidence >= threshold
    decreases |ds|
  {
    if ds == [] then []
    else
      var last := ds[|ds| - 1];
      assert ds == ds[..|ds| - 1] + [last];
      Kept(ds[..|ds| - 1], threshold) + (if last.confidence < threshold then [] else [last])
  }

  /** A single detection survives exactly when its confidence is not below the threshold. */
  lemma KeptSingle(d: Detection, threshold: real)
    ensures Kept([d], threshold) == if d.confidence >= threshold then [d] else []
  {
    assert [d][..0] == [];
  }

  /** Filtering keeps order and multiplicity: the survivors of `a + b` are those of `a`, then those of `b`. */
  lemma {:induction false} KeptAppend(a: seq<Detection>, b: seq<Detection>, threshold: real)
    ensures Kept(a + b, threshold) == Kept(a, threshold) + Kept(b, threshold)
    decreases |b|
  {
    if b == [] {
      assert a + b == a;
    } else {
      var n := |b| - 1;
      var last := b[n];
      assert (a + b)[..|a + b| - 1] == a + b[..n];
      assert (a + b)[|a + b| - 1] == last;
      KeptAppend(a, b[..n], threshold);
      var tail := if last.confidence < threshold then [] else [last];
      assert Kept(a + b, threshold) == (Kept(a, threshold) + Kept(b[..n], threshold)) + tail;
      assert Kept(b, threshold) == Kept(b[..n], threshold) + tail;
    }
  }

  /** `filled_spots`: the detections of class 1 whose confidence is not below the threshold. */
  function FilledCount(ds: seq<Detection>, threshold: real): nat
    decreases |ds|
  {
    if ds == [] then 0
    else
      var last := ds[|ds| - 1];
      FilledCount(ds[..|ds| - 1], threshold)
        + (if last.classId == FilledClass && last.confidence >= threshold then 1 else 0)
  }

  /** The kept detections of any class other than 1, the ones labelled Empty. */
  function EmptyLabelCount(ds: seq<Detection>, threshold: real): nat
    decreases |ds|
  {
    if ds == [] then 0
    else
      var last := ds[|ds| - 1];
      EmptyLabelCount(ds[..|ds| - 1], threshold)
        + (if last.classId != FilledClass && last.confidence >= threshold then 1 else 0)
  }

  /**
   * The summary counts: `total` is the number of drawn detections, `filled`
   * never exceeds it, and `empty = total - filled` is exactly the number of
   * drawn detections labelled Empty, so it is never negative.
   */
  lemma {:induction false} SummaryCounts(ds: seq<Detection>, threshold: real)
    ensures FilledCount(ds, threshold) + EmptyLabelCount(ds, threshold) == |Kept(ds, threshold)|
    ensures FilledCount(ds, threshold) <= |Kept(ds, threshold)|
    decreases |ds|
  {
    if ds != [] {
      SummaryCounts(ds[..|ds| - 1], threshold);
    }
  }

  /** A higher threshold never draws more detections. */
  lemma {:induction false} ThresholdMonotone(ds: seq<Detection>, low: real, high: real)
    requires low <= high
    ensures |Kept(ds, high)| <= |Kept(ds, low)|
    ensures FilledCount(ds, high) <= FilledCount(ds, low)
    decreases |ds|
  {
    if ds != [] {
      ThresholdMonotone(ds[..|ds| - 1], low, high);
    }
  }

  /** The calls of the loop over `detections`, skipping those below the threshold. */
  function Commands(o: ParkingSpotOverlay, ds: seq<Detection>, threshold: real, lib: Library): seq<DrawCommand>
    decreases |ds|
  {
    if ds == [] then []
    else
      var last := ds[|ds| - 1];
      Commands(o, ds[..|ds| - 1], threshold, lib)
        + (if last.confidence < threshold then [] else DetectionCommands(o, last, lib))
  }

  /** The calls for a list of detections that are all drawn. */
  function KeptCommands(o: ParkingSpotOverlay, ks: seq<Detection>, lib: Library): (r: seq<DrawCommand>)
    ensures |r| == 3 * |ks|
    decreases |ks|
  {
    if ks == [] then []
    else KeptCommands(o, ks[..|ks| - 1], lib) + DetectionCommands(o, ks[|ks| - 1], lib)
  }

  /** Filtering first and then drawing every survivor gives the same calls as the loop. */
  lemma {:induction false} CommandsOfKept(o: ParkingSpotOverlay, ds: seq<Detection>, threshold: real, lib: Library)
    ensures Commands(o, ds, threshold, lib) == KeptCommands(o, Kept(ds, threshold), lib)
    decreases |ds|
  {
    if ds != [] {
      var init := ds[..|ds| - 1];
      var last := ds[|ds| - 1];
      CommandsOfKept(o, init, threshold, lib);
      if last.confidence >= threshold {
        var ks := Kept(init, threshold) + [last];
        assert Kept(ds, threshold) == ks;
        assert ks[..|ks| - 1] == Kept(init, threshold) && ks[|ks| - 1] == last;
        assert KeptCommands(o, ks, lib) == KeptCommands(o, Kept(init, threshold), lib) + DetectionCommands(o, last, lib);
      } else {
        assert Kept(ds, threshold) == Kept(init, threshold);
      }
    }
  }

  /** The `k`-th drawn detection owns calls `3k`, `3k+1` and `3k+2`, in list order. */
  lemma {:induction false} KeptCommandsAt(o: ParkingSpotOverlay, ks: seq<Detection>, lib: Library, k: nat)
    requires k < |ks|
    ensures KeptCommands(o, ks, lib)[3 * k..3 * k + 3] == DetectionCommands(o, ks[k], lib)
    decreases |ks|
  {
    var init := ks[..|ks| - 1];
    if k < |ks| - 1 {
      KeptCommandsAt(o, init, lib, k);
      assert init[k] == ks[k];
      assert KeptCommands(o, ks, lib)[3 * k..3 * k + 3] == KeptCommands(o, init, lib)[3 * k..3 * k + 3];
    } else {
      assert KeptCommands(o, ks, lib)[3 * k..3 * k + 3] == KeptCommands(o, ks, lib)[|KeptCommands(o, init, lib)|..];
    }
  }

  /** `f"Total: {total_spots} | Filled: {filled_spots} | Empty: {empty_spots}"`. */
  function SummaryText(total: int, filled: int, empty: int): string {
    "Total: " + IntToString(total) + " | Filled: " + IntToString(filled) + " | Empty: " + IntToString(empty)
  }

  /** The summary call: thick white text 10 pixels in from the left and 10 up from the bottom. */
  function SummaryCommand(height: int, ds: seq<Detection>, threshold: real): DrawCommand {
    var total := |Kept(ds, threshold)|;
    var filled := FilledCount(ds, threshold);
    PutText(SummaryText(total, filled, total - filled), Point(10, height - 10), 0.7, White, 2)
  }

  /** The summary's Empty figure is the number of drawn detections labelled Empty. */
  lemma SummaryReportsLabels(height: int, ds: seq<Detection>, threshold: real)
    ensures SummaryCommand(height, ds, threshold).text
      == SummaryText(|Kept(ds, threshold)|, FilledCount(ds, threshold), EmptyLabelCount(ds, threshold))
  {
    SummaryCounts(ds, threshold);
  }

  /** Everything `draw_detections` draws on an image `height` pixels tall, in order. */
  function Plan(o: ParkingSpotOverlay, height: int, ds: seq<Detection>, threshold: real, lib: Library): seq<DrawCommand> {
    Commands(o, ds, threshold, lib) + [SummaryCommand(height, ds, threshold)]
  }

  /** The `k`-th drawn detection owns calls `3k`, `3k+1` and `3k+2` of the drawn-only calls, for every `k`. */
  lemma KeptCommandsShape(o: ParkingSpotOverlay, ks: seq<Detection>, lib: Library)
    ensures |KeptCommands(o, ks, lib)| == 3 * |ks|
    ensures forall k :: 0 <= k < |ks| ==> KeptCommands(o, ks, lib)[3 * k..3 * k + 3] == DetectionCommands(o, ks[k], lib)
  {
    forall k | 0 <= k < |ks| ensures KeptCommands(o, ks, lib)[3 * k..3 * k + 3] == DetectionCommands(o, ks[k], lib) {
      KeptCommandsAt(o, ks, lib, k);
    }
  }

  /**
   * The plan's shape: the calls for the drawn detections alone, three per
   * detection in list order, then exactly one summary call at the bottom left.
   */
  lemma PlanShape(o: ParkingSpotOverlay, height: int, ds: seq<Detection>, threshold: real, lib: Library)
    ensures Plan(o, height, ds, threshold, lib)
      == KeptCommands(o, Kept(ds, threshold), lib) + [SummaryCommand(height, ds, threshold)]
    ensures |Plan(o, height, ds, threshold, lib)| == 3 * |Kept(ds, threshold)| + 1
    ensures SummaryCommand(height, ds, threshold).origin == Point(10, height - 10)
  {
    CommandsOfKept(o, ds, threshold, lib);
  }

  /** Every call of `cmds` goes through. */
  predicate AllAccepted(cmds: seq<DrawCommand>, lib: Library) {
    forall c :: c in cmds ==> lib.accepts(c)
  }

  /**
   * What `draw_detections` returns for `p`: a copy carrying the whole plan
   * when every drawing call goes through, and otherwise `p` itself, since
   * the exception discards the half-drawn copy.
   */
  function Overlaid(o: ParkingSpotOverlay, p: Picture, ds: seq<Detection>, threshold: real, lib: Library): Picture {
    var plan := Plan(o, p.height, ds, threshold, lib);
    if AllAccepted(plan, lib) then Picture(p.height, p.width, p.marks + plan) else p
  }

  lemma CommandsAppendOne(o: ParkingSpotOverlay, ds: seq<Detection>, threshold: real, lib: Library, i: nat)
    requires i < |ds|
    ensures Commands(o, ds[..i + 1], threshold, lib)
      == Commands(o, ds[..i], threshold, lib) + (if ds[i].confidence < threshold then [] else DetectionCommands(o, ds[i], lib))
  {
    assert ds[..i + 1][..i] == ds[..i];
  }

  /** The loop's calls so far are a prefix of the whole plan's. */
  lemma {:induction false} CommandsPrefix(o: ParkingSpotOverlay, ds: seq<Detection>, threshold: real, lib: Library, i: nat)
    requires i <= |ds|
    ensures forall c :: c in Commands(o, ds[..i], threshold, lib) ==> c in Commands(o, ds, threshold, lib)
    decreases |ds| - i
  {
    if i < |ds| {
      CommandsAppendOne(o, ds, threshold, lib, i);
      CommandsPrefix(o, ds, threshold, lib, i + 1);
    } else {
      assert ds[..i] == ds;
    }
  }

  /** One drawing call on the copy; `ok` is false where OpenCV raises and nothing is drawn. */
  method Paint(canvas: Canvas, cmd: DrawCommand, lib: Library) returns (ok: bool)
    modifies canvas
    ensures ok == lib.accepts(cmd)
    ensures canvas.marks == if ok then old(canvas.marks) + [cmd] else old(canvas.marks)
  {
    ok := lib.accepts(cmd);
    if ok {
      canvas.Draw(cmd);
    }
  }

  /** The three calls for one detection that is not below the threshold; `ok` is false when one of them raises. */
  method DrawDetection(o: ParkingSpotOverlay, canvas: Canvas, d: Detection, lib: Library) returns (ok: bool)
    modifies canvas
    ensures ok <==> AllAccepted(DetectionCommands(o, d, lib), lib)
    ensures ok ==> canvas.marks == old(canvas.marks) + DetectionCommands(o, d, lib)
  {
    var own := DetectionCommands(o, d, lib);
    var color := ColorOf(o, d.classId);
    ok := Paint(canvas, Rectangle(Point(d.bbox.xMin, d.bbox.yMin), Point(d.bbox.xMax, d.bbox.yMax), color, 2), lib);
    if !ok {
      assert own[0] in own;
      return;
    }
    var caption := LabelText(d.classId, d.confidence, lib);
    var size := lib.textSize(caption);
    var w := size.0;
    var h := size.1;
    ok := Paint(canvas, Rectangle(Point(d.bbox.xMin, d.bbox.yMin - h - 10), Point(d.bbox.xMin + w, d.bbox.yMin), color, Filled), lib);
    if !ok {
      assert own[1] in own;
      return;
    }
    ok := Paint(canvas, PutText(caption, Point(d.bbox.xMin, d.bbox.yMin - 5), 0.5, White, 1), lib);
    if !ok {
      assert own[2] in own;
      return;
    }
    assert own == [own[0], own[1], own[2]];
  }

  /** `AllAccepted` splits over concatenation. */
  lemma AllAcceptedAppend(a: seq<DrawCommand>, b: seq<DrawCommand>, lib: Library)
    ensures AllAccepted(a + b, lib) <==> AllAccepted(a, lib) && AllAccepted(b, lib)
  {
    if AllAccepted(a, lib) && AllAccepted(b, lib) {
      forall c | c in a + b ensures lib.accepts(c) {
        assert c in a || c in b;
      }
    }
  }

  /** A call that raises for a drawn detection spoils the loop's calls. */
  lemma SpoiledCommands(o: ParkingSpotOverlay, ds: seq<Detection>, threshold: real, lib: Library, i: nat)
    requires i < |ds| && ds[i].confidence >= threshold
    requires !AllAccepted(DetectionCommands(o, ds[i], lib), lib)
    ensures !AllAccepted(Commands(o, ds, threshold, lib), lib)
  {
    var bad :| bad in DetectionCommands(o, ds[i], lib) && !lib.accepts(bad);
    CommandsAppendOne(o, ds, threshold, lib, i);
    CommandsPrefix(o, ds, threshold, lib, i + 1);
    assert bad in Commands(o, ds[..i + 1], threshold, lib);
  }

  /** A call that raises for a drawn detection spoils the whole plan. */
  lemma SpoiledPlan(o: ParkingSpotOverlay, height: int, ds: seq<Detection>, threshold: real, lib: Library, i: nat)
    requires i < |ds| && ds[i].confidence >= threshold
    requires !AllAccepted(DetectionCommands(o, ds[i], lib), lib)
    ensures !AllAccepted(Plan(o, height, ds, threshold, lib), lib)
  {
    SpoiledCommands(o, ds, threshold, lib, i);
    AllAcceptedAppend(Commands(o, ds, threshold, lib), [SummaryCommand(height, ds, threshold)], lib);
  }

  /** The loop of `draw_detections` over the copy: every detection not below the threshold, until a call raises. */
  method DrawEach(o: ParkingSpotOverlay, canvas: Canvas, ds: seq<Detection>, threshold: real, lib: Library)
    returns (ok: bool)
    modifies canvas
    ensures ok <==> AllAccepted(Commands(o, ds, threshold, lib), lib)
    ensures ok ==> canvas.marks == old(canvas.marks) + Commands(o, ds, threshold, lib)
  {
    var i := 0;
    while i < |ds|
      invariant 0 <= i <= |ds|
      invariant canvas.marks == old(canvas.marks) + Commands(o, ds[..i], threshold, lib)
      invariant AllAccepted(Commands(o, ds[..i], threshold, lib), lib)
    {
      CommandsAppendOne(o, ds, threshold, lib, i);
      if ds[i].confidence >= threshold {
        ok := DrawDetection(o, canvas, ds[i], lib);
        if !ok {
          SpoiledCommands(o, ds, threshold, lib, i);
          return;
        }
        AllAcceptedAppend(Commands(o, ds[..i], threshold, lib), DetectionCommands(o, ds[i], lib), lib);
      }
      i := i + 1;
    }
    assert ds[..|ds|] == ds;
    ok := true;
  }

  /**
   * `draw_detections`: the image is copied, every detection not below the
   * threshold is outlined and labelled, the summary is added, and the copy
   * is returned; when a call raises, the untouched input is returned.
   */
  method DrawDetections(o: ParkingSpotOverlay, image: Canvas, ds: seq<Detection>, threshold: real, lib: Library)
    returns (out: Canvas)
    ensures out.Snapshot() == Overlaid(o, image.Snapshot(), ds, threshold, lib)
    ensures out == image || fresh(out)
    ensures !AllAccepted(Plan(o, image.height, ds, threshold, lib), lib) ==> out == image
    ensures AllAccepted(Plan(o, image.height, ds, threshold, lib), lib) ==> fresh(out)
  {
    var annotated := image.Copy();
    var ok := DrawEach(o, annotated, ds, threshold, lib);
    var summary := SummaryCommand(annotated.height, ds, threshold);
    AllAcceptedAppend(Commands(o, ds, threshold, lib), [summary], lib);
    if !ok {
      return image;
    }
    ok := Paint(annotated, summary, lib);
    if !ok {
      return image;
    }
    out := annotated;
  }

  /**
   * What `create_overlay_image` returns: the original bytes when they do not
   * decode or the result does not encode, and otherwise the encoding of what
   * `draw_detections` returned, which is the decoded image without any
   * drawing when a drawing call raised.
   */
  function OverlayBytes(o: ParkingSpotOverlay, data: seq<bv8>, ds: seq<Detection>, threshold: real, lib: Library): seq<bv8> {
    match lib.decode(data)
    case None => data
    case Some(p) =>
      match lib.encode(Overlaid(o, p, ds, threshold, lib))
      case None => data
      case Some(bytes) => bytes
  }

  /** `create_overlay_image`. */
  method CreateOverlayImage(o: ParkingSpotOverlay, data: seq<bv8>, ds: seq<Detection>, threshold: real, lib: Library)
    returns (bytes: seq<bv8>)
    ensures bytes == OverlayBytes(o, data, ds, threshold, lib)
  {
    var decoded := lib.decode(data);
    if decoded.None? {
      return data;
    }
    var image := new Canvas(decoded.value);
    var annotated := DrawDetections(o, image, ds, threshold, lib);
    var encoded := lib.encode(annotated.Snapshot());
    if encoded.None? {
      return data;
    }
    bytes := encoded.value;
  }

  /** Bytes that do not decode come back unchanged, whatever the detections. */
  lemma UndecodableBytesReturned(o: ParkingSpotOverlay, data: seq<bv8>, ds: seq<Detection>, threshold: real, lib: Library)
    requires lib.decode(data).None?
    ensures OverlayBytes(o, data, ds, threshold, lib) == data
  {
  }

  /**
   * When a drawing call raises, the answer is not the original bytes but the
   * decoded image encoded again, without any drawing on it.
   */
  lemma DrawingFailureReencodes(o: ParkingSpotOverlay, data: seq<bv8>, ds: seq<Detection>, threshold: real, lib: Library)
    requires lib.decode(data).Some?
    requires !AllAccepted(Plan(o, lib.decode(data).value.height, ds, threshold, lib), lib)
    requires lib.encode(lib.decode(data).value).Some?
    ensures OverlayBytes(o, data, ds, threshold, lib) == lib.encode(lib.decode(data).value).value
  {
  }

  /** When every call goes through, the encoded image carries the decoded image's drawing followed by the whole plan. */
  lemma OverlaySucceeds(o: ParkingSpotOverlay, data: seq<bv8>, ds: seq<Detection>, threshold: real, lib: Library)
    requires lib.decode(data).Some?
    requires AllAccepted(Plan(o, lib.decode(data).value.height, ds, threshold, lib), lib)
    ensures var p := lib.decode(data).value;
      var drawn := Picture(p.height, p.width, p.marks + Plan(o, p.height, ds, threshold, lib));
      OverlayBytes(o, data, ds, threshold, lib) == if lib.encode(drawn).Some? then lib.encode(drawn).value else data
  {
  }
}
