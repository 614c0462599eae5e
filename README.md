# Parking-spot detector bookkeeping, in Dafny

This models the JXOHG/automotive_challenge parking-spot detector. It covers the logic that runs around the Faster R-CNN detector, and treats the detector itself as a black box:

- **Detection scripts.** `backend/newer.py`, `model/newer.py` and `backend/nweeset.py` turn the detector's boxes into records. They crop dense scenes and run a second pass. They write a space-separated detection log, and the three scripts use three different layouts.
- **Log reader.** `model/DrawBoxesFromTxt.py` reads such a log back and draws the boxes.
- **Training labels.** `parkingSpotTrack.py` groups the training labels per image and builds the per-image training target.
- **Split and merge.** `model/ModelTest.py` splits an image in two, predicts on the halves, annotates them and plans their merge.
- **Overlay renderer.** `backend/parking_spot_overlay.py` plans the overlay: box outlines, labels, the Total/Filled/Empty summary, and the fallbacks on failure.
- **Upload validation.** `backend/flaskapp.py` checks uploads, builds the stored file names, checks the query parameters and returns mock answers.

One Dafny module per source file:

| module | file | source |
|---|---|---|
| `Detections` | detections.dfy | records, crop row and region, refinement (shared by both `newer.py`) |
| `DetectionLog` | detection_log.dfy | the three log layouts, the log file, write loop, read-back |
| `BackendNewer` | backend_newer.dfy | backend/newer.py |
| `ModelNewer` | model_newer.dfy | model/newer.py |
| `Nweeset` | nweeset.dfy | backend/nweeset.py |
| `DrawBoxesFromTxt` | draw_boxes.dfy | model/DrawBoxesFromTxt.py |
| `ParkingSpotTrack` | training_labels.dfy | parkingSpotTrack.py (label grouping and dataset) |
| `ModelTest` | model_test.dfy | model/ModelTest.py |
| `Overlay` | overlay.dfy | backend/parking_spot_overlay.py |
| `FlaskApp` | flask_app.dfy | backend/flaskapp.py |
| `Text`, `PyPath`, `Drawing`, `Wrappers` | text.dfy, pypath.dfy, drawing.dfy, wrappers.dfy | the Python and library behaviour the scripts rely on |

## How the outside world enters the model

- **The detector.** It is a parameter `detect: string -> Option<DetectorOutput>`. `None` stands for `Image.open` raising. `WellFormedDetector` says that labels and scores cover every box.
- **Scores.** A score is its real value plus two printed forms: `str(float)` and the text of the score tensor inside an f-string. For a 0-dimensional tensor that text is also the float's printed form; the model leaves both texts open and does not compute float formatting.
- **Coordinates.** They are reals. `int()` is truncation toward zero (`Detections.Trunc`).
- **Paths.** They follow Python's `ntpath` without drive letters. The separators are `\` and `/`, and `join` inserts `\`. The scripts were written for Windows.
- **Text parsing.**
  - `str.split()` splits on ASCII whitespace.
  - Iterating a file splits at `\n`, `\r` and `\r\n`.
  - `int()` accepts a sign and decimal digits.
  - `float()` accepts a sign and digits with an optional decimal point.
- **Images.** An image is `Drawing.Picture`: its size plus the drawing calls applied to it. Drawing is in place on a `Drawing.Canvas` object.
- **OpenCV and formatting.** In the overlay, OpenCV's text size, two-decimal formatting, JPEG decoding and encoding, and whether a drawing call raises all come from a `Library` parameter.
- **Clock.** The Flask routes take the clock as parameters: `timestamp` for `int(time.time())` and `clock` for the formatted time.

## Behaviour the model pins down

- **Crop height.** Both `crop` functions start at 640 and keep every smaller truncated `y_max`. The crop height is therefore the *minimum* bottom edge, and no confidence threshold applies (backend/newer.py:51-55, model/newer.py:44-48). `Detections.CropRow` states this.
- **Log score format.** The writers print the score with `str(float)`, or as the tensor element in model/newer.py (backend/newer.py:77, model/newer.py:79, backend/nweeset.py:76). No fixed number of decimals is used.
- **Overlay fallback.** When drawing fails, `draw_detections` catches the exception and returns the undrawn image. `create_overlay_image` then re-encodes that image (backend/parking_spot_overlay.py:96-98, 121-125). Only a decode or an encode failure returns the original bytes. `Overlay.DrawingFailureReencodes` states this.

## Model

| member | source | states |
|---|---|---|
| Detections.Trunc | backend/newer.py:53 | `int()` on a float truncates toward zero: the result is within one of the input, on the zero side |
| Detections.Predict | backend/newer.py:40-45 | one record per detector box, in detector order, pairing box `i` with label `i` and score `i`, with no filtering |
| Detections.CropRow | backend/newer.py:51-55 | the crop row is at most 640 and at most every record's truncated `y_max`, and it is 640 or one of those values: the minimum, not the maximum |
| Detections.CropHeight | backend/newer.py:51-55 | the `highest` loop yields exactly the crop row |
| Detections.CropRegion | backend/newer.py:62 | the crop box, from the top-left corner, is 640 wide and `highest + 10` tall |
| Detections.CropRowOnlyReadsBottoms | backend/newer.py:52-55 | the crop row depends only on the truncated bottom edges: x, `y_min`, labels and scores do not matter |
| Detections.Refined | backend/newer.py:112-117 | at 100 or more first-pass records, the crop pass's records follow the first pass's; below that, the first pass stands alone |
| DetectionLog.LineFields | backend/newer.py:76-77 | seven fields: the name, then score-label (both `newer.py`) or label-score (`nweeset.py`), then the four truncated coordinates |
| DetectionLog.FieldsOfLine | backend/newer.py:77 | splitting a written line on whitespace returns exactly its seven fields when the name and score are single tokens |
| DetectionLog.ReadBack | backend/newer.py:74-77 | reading one call's text line by line gives one line per record, in order, each splitting into that record's fields |
| DetectionLog.LogFile.constructor | backend/newer.py:74 | the file starts with its prior content |
| DetectionLog.LogFile.OpenForWrite | model/newer.py:76 | opening with "w" empties the file |
| DetectionLog.LogFile.Write | backend/newer.py:77 | `write` appends exactly the given text |
| DetectionLog.WriteLines | backend/newer.py:75-77 | the write loop appends the log text of all records, one terminated line each, in list order |
| DetectionLog.LogTextOfPrefix | backend/newer.py:75-77 | one more record appends exactly its line and "\n" |
| DetectionLog.LogTextAppend | backend/newer.py:117-120 | logging an extended list writes the first list's text and then the second's |
| BackendNewer.CroppedPathName | backend/newer.py:58-60 | the crop file is named after the source's stem plus "_c.jpg", whatever the source's extension |
| BackendNewer.Crop | backend/newer.py:49-64 | `crop` returns the path beside the source and crops to the region of the minimum truncated `y_max` |
| BackendNewer.CompileData | backend/newer.py:66-77 | append mode: the file afterwards is its old content followed by one score-first line per record |
| BackendNewer.RunMain | backend/newer.py:104-120 | `main` logs exactly the two-pass records, appended; when an image fails to open, nothing is written |
| BackendNewer.MainLogSplits | backend/newer.py:109-120 | the appended text is the first pass's lines, followed by the crop pass's lines only when the first pass had at least 100 records |
| ModelNewer.Script.constructor | model/newer.py:25 | the global `predictions` list starts empty |
| ModelNewer.Script.Predict | model/newer.py:27-41 | `predict` appends one record per box to the global list, keeping what was there |
| ModelNewer.Script.Crop | model/newer.py:43-58 | `crop` reads the whole global list, writes to the fixed Cropped_Images folder, and uses the minimum-`y_max` region |
| ModelNewer.Script.CompileData | model/newer.py:74-80 | overwrite mode: the file afterwards holds only the tensor-score lines of the global list |
| ModelNewer.RunScript | model/newer.py:82-87 | the script logs the first pass and, at 100 or more records, the crop pass after it; the file holds only those lines |
| Nweeset.CompileData | backend/nweeset.py:71-77 | append mode, label before score, with the name being the stem plus ".jpg" |
| Nweeset.ProcessEntry | backend/nweeset.py:107-126 | one entry: it fails exactly when the image does not open; otherwise it appends that entry's unrefined records |
| Nweeset.RunMain | backend/nweeset.py:104-126 | entries are processed in listing order until the first that fails to open; the file gains the text of every processed entry, in order |
| Nweeset.FolderTextOfPrefix | backend/nweeset.py:106-126 | one more entry adds exactly that entry's text |
| Nweeset.FolderTextAppend | backend/nweeset.py:106-126 | the text of a listing is the text of its first part followed by that of the rest |
| Nweeset.EntryLogName | backend/nweeset.py:76 | an entry `s.e` is logged under `s.jpg`, whatever its extension |
| DrawBoxesFromTxt.ParseParts | model/DrawBoxesFromTxt.py:16-17 | a line parses exactly when it has at least seven fields, field 2 is an `int` and fields 3-6 are floats (extra fields are ignored); the result is the name in field 0, the label and the box; an empty line raises IndexError |
| DrawBoxesFromTxt.SelectErrPersists | model/DrawBoxesFromTxt.py:15-17 | once a line raises, loading fails with that error, whatever follows |
| DrawBoxesFromTxt.SelectAllKeyed | model/DrawBoxesFromTxt.py:21-25 | when every line parses under the asked name, all records are kept in file order |
| DrawBoxesFromTxt.SelectNoneKeyed | model/DrawBoxesFromTxt.py:21-25 | when every line parses under another name, nothing is kept |
| DrawBoxesFromTxt.LoadPredictions | model/DrawBoxesFromTxt.py:11-27 | the reading loop computes exactly the selection of the file's lines |
| DrawBoxesFromTxt.ParseWrittenLine | model/DrawBoxesFromTxt.py:17 | a line written score-first parses back to its name, label and truncated box |
| DrawBoxesFromTxt.LoadReadsConfidenceFirstLog | model/DrawBoxesFromTxt.py:11-27 | a score-first log reads back as exactly its records under the written name, and as nothing under any other name |
| DrawBoxesFromTxt.StemLogNotFoundByFileName | model/DrawBoxesFromTxt.py:29-31 | the writers log `stem.ext` under `stem`, the script asks for `stem.ext`, so the script loads nothing from such a log |
| DrawBoxesFromTxt.LoadRejectsLabelFirstLog | model/DrawBoxesFromTxt.py:17 | a label-first (`nweeset.py`) log with non-integer scores is refused with ValueError as soon as it has a line |
| DrawBoxesFromTxt.LabelColor | model/DrawBoxesFromTxt.py:36-41 | label 1 is green, every other label red |
| DrawBoxesFromTxt.Annotations | model/DrawBoxesFromTxt.py:34-45 | two calls per record, in load order: the rectangle, then the label text |
| DrawBoxesFromTxt.AnnotationColors | model/DrawBoxesFromTxt.py:36-45 | a record's rectangle and text share its colour, and the text is the label |
| DrawBoxesFromTxt.Annotate | model/DrawBoxesFromTxt.py:34-45 | the drawing loop appends exactly those calls to the image |
| DrawBoxesFromTxt.OutputFileName | model/DrawBoxesFromTxt.py:50 | the output file name is the image's file name plus "_annotated.jpg", keeping the original extension |
| DrawBoxesFromTxt.RunScript | model/DrawBoxesFromTxt.py:29-51 | on a load error nothing is drawn and the error is returned; otherwise all the loaded records are drawn and the output path is returned |
| ParkingSpotTrack.ParseParts | parkingSpotTrack.py:16-24 | a line parses exactly when it has at least six fields and fields 2-5 are floats (extra fields are ignored); it keeps the name, the classification text and the box; fewer than two fields raise IndexError |
| ParkingSpotTrack.Add | parkingSpotTrack.py:26-29 | adding an entry keeps the dict well formed: its keys are distinct and are its entries |
| ParkingSpotTrack.Group | parkingSpotTrack.py:14-29 | the dict built by the loop is well formed |
| ParkingSpotTrack.GroupKeys | parkingSpotTrack.py:26-29 | the keys are exactly the file names that occur in the label file |
| ParkingSpotTrack.GroupOrder | parkingSpotTrack.py:26-29 | the keys are ordered by each name's first appearance in the file |
| ParkingSpotTrack.GroupLists | parkingSpotTrack.py:26-29 | each name's list is the boxes of its lines in file order; names not in the file have none |
| ParkingSpotTrack.GroupSize | parkingSpotTrack.py:37-40 | the dataset's length is the number of distinct file names |
| ParkingSpotTrack.GroupStep | parkingSpotTrack.py:26-29 | one more line adds its entry to the dict built so far |
| ParkingSpotTrack.Append | parkingSpotTrack.py:26-29 | the in-place dict update performs exactly that addition |
| ParkingSpotTrack.ReadLabelFile | parkingSpotTrack.py:14-29 | the file loop yields the grouping of all lines, or the error of the first malformed line |
| ParkingSpotTrack.TargetOf | parkingSpotTrack.py:47-52 | one target entry per box: the box, label 1 exactly for classification "1" and 2 otherwise, the area (x2-x1)(y2-y1), and iscrowd 0 |
| ParkingSpotTrack.GetItem | parkingSpotTrack.py:42-64 | an index is valid exactly in [-len, len), with Python's negative indexing; the image path joins the folder and that key, and the target is `TargetOf` that key's boxes |
| ParkingSpotTrack.DatasetItem | parkingSpotTrack.py:32-64 | item `i` of the dataset built from the labels has as target `TargetOf` the boxes of the `i`-th distinct file name, in file order |
| ModelTest.SplitImage | model/ModelTest.py:12-35 | two full-width crops, top and bottom, that tile the image at `height // 2`; the bottom one is the same height or one row taller; they are written to `os.path.join(output_dir, stem + "_top.jpg")` and `os.path.join(output_dir, stem + "_bottom.jpg")` |
| ModelTest.HalvesDistinct | model/ModelTest.py:23-25 | the two halves are saved to different paths |
| ModelTest.Zipped | model/ModelTest.py:68-71 | `zip(boxes, labels)` pairs them index by index, up to the shorter list |
| ModelTest.PredictImages | model/ModelTest.py:51-73 | the prediction loop computes exactly the per-path map, or fails |
| ModelTest.PredictAllNonePersists | model/ModelTest.py:58-59 | once an image fails to open, the whole call fails |
| ModelTest.PredictAllContents | model/ModelTest.py:56-73 | success exactly when every image opens; the keys are then the paths, and each value is that image's zipped boxes and labels |
| ModelTest.DrawPredictions | model/ModelTest.py:76-95 | the loop appends, per prediction, a rectangle and its label text |
| ModelTest.PredictionCommandsAgree | model/ModelTest.py:83-93 | one prediction is drawn exactly as model/DrawBoxesFromTxt.py draws a record |
| ModelTest.SameDrawingAsDrawBoxes | model/ModelTest.py:83-93 | the whole drawing equals the reader script's drawing of the same boxes and labels |
| ModelTest.AnnotateAll | model/ModelTest.py:134-139 | the annotation loop draws exactly the planned (image, annotated path) pairs, in order |
| ModelTest.AnnotationPlanContents | model/ModelTest.py:134-139 | an image is annotated exactly when its prediction list exists and is non-empty, and then to base + "_annotated" + ext |
| ModelTest.AnnotatedNamesAgree | model/ModelTest.py:142 | for a ".jpg" path, the merge opens the very name the annotation loop wrote |
| ModelTest.MergeImages | model/ModelTest.py:102-117 | no plan for an empty list; otherwise the first image's width, the sum of heights, and image `i` pasted at the sum of the heights before it |
| ModelTest.MergeTiles | model/ModelTest.py:112-115 | each paste starts where the previous image ends, and the last ends at the total height |
| ModelTest.MergeOfHalves | model/ModelTest.py:108 | merging the two halves restores the original height, with the bottom half at `height // 2` |
| Overlay.NewOverlayColors | backend/parking_spot_overlay.py:9-16 | ids 1, 2 and 3 get their table colours, and every other id the default (255, 255, 0) |
| Overlay.LabelNamesClass | backend/parking_spot_overlay.py:50 | a label reads "Filled: " exactly for class 1; every other id, 3 and unknown ones included, reads "Empty: " |
| Overlay.DetectionCommands | backend/parking_spot_overlay.py:39-74 | per detection: the outline (thickness 2), then the filled background in the same colour, then the white label at scale 0.5 |
| Overlay.LabelGeometry | backend/parking_spot_overlay.py:56-69 | the background spans [x_min, x_min + w] by [y_min - h - 10, y_min]; the label starts at (x_min, y_min - 5), inside the background |
| Overlay.Kept | backend/parking_spot_overlay.py:34-37 | a detection is drawn exactly when its confidence is not below the threshold |
| Overlay.DefaultThresholdKeeps | backend/parking_spot_overlay.py:18 | at the default `confidence_threshold=0.5` a detection is kept exactly when its confidence is at least 0.5 |
| Overlay.KeptSingle | backend/parking_spot_overlay.py:36-37 | one detection is kept exactly when its confidence is not below the threshold |
| Overlay.KeptAppend | backend/parking_spot_overlay.py:34-37 | filtering keeps list order and multiplicity: the survivors of `a + b` are those of `a` followed by those of `b` |
| Overlay.ThresholdMonotone | backend/parking_spot_overlay.py:36-37 | a higher threshold never draws more detections or counts more Filled |
| Overlay.SummaryCounts | backend/parking_spot_overlay.py:77-79 | Filled never exceeds Total, and Filled plus the number of drawn non-1 detections is Total |
| Overlay.SummaryReportsLabels | backend/parking_spot_overlay.py:77-82 | the summary's Empty figure is the number of drawn detections labelled Empty |
| Overlay.CommandsOfKept | backend/parking_spot_overlay.py:34-37 | skipping inside the loop draws the same calls as filtering first and drawing every survivor |
| Overlay.KeptCommandsAt | backend/parking_spot_overlay.py:34-74 | the `k`-th drawn detection owns calls 3k to 3k+2 |
| Overlay.KeptCommandsShape | backend/parking_spot_overlay.py:34-74 | three calls per drawn detection, in list order |
| Overlay.PlanShape | backend/parking_spot_overlay.py:34-92 | the plan is the drawn detections' calls and then exactly one summary call at (10, height - 10) |
| Overlay.DrawDetection | backend/parking_spot_overlay.py:46-74 | one detection's three calls succeed together or report the failure |
| Overlay.SpoiledCommands | backend/parking_spot_overlay.py:34-74 | a failing call on any drawn detection makes the detection loop fail |
| Overlay.DrawEach | backend/parking_spot_overlay.py:34-74 | the loop over the copy succeeds exactly when every call for the drawn detections is accepted, and then those calls are added in order |
| Overlay.SpoiledPlan | backend/parking_spot_overlay.py:30-98 | a failing call on any drawn detection makes the whole drawing fail |
| Overlay.DrawDetections | backend/parking_spot_overlay.py:18-98 | returns a fresh copy carrying the whole plan exactly when every call of the plan succeeds, and the untouched input itself otherwise; the input is never drawn on |
| Overlay.CreateOverlayImage | backend/parking_spot_overlay.py:100-129 | returns exactly the decode, draw and encode outcome, falling back to the input bytes |
| Overlay.UndecodableBytesReturned | backend/parking_spot_overlay.py:114-118 | bytes that do not decode come back unchanged |
| Overlay.DrawingFailureReencodes | backend/parking_spot_overlay.py:121-125 | when drawing fails, the answer is the undrawn image re-encoded |
| Overlay.OverlaySucceeds | backend/parking_spot_overlay.py:112-125 | when every call succeeds, the encoded image carries the whole plan |
| FlaskApp.AllowedFile | backend/flaskapp.py:25-26 | allowed exactly when there is a '.' and the text after the last one, lower-cased, is png, jpg or jpeg |
| FlaskApp.AllowedFileByLastExtension | backend/flaskapp.py:26 | only the final extension decides |
| FlaskApp.NoDotRejected | backend/flaskapp.py:26 | a name without a '.' is refused |
| FlaskApp.AllowedFileIgnoresCase | backend/flaskapp.py:26 | names that lower-case alike are judged alike |
| FlaskApp.AllowedAtLastDot | backend/flaskapp.py:26 | once the last '.' is located, the verdict is whether the lower-cased text after it is whitelisted |
| FlaskApp.AllowedFileExamples | backend/flaskapp.py:26 | "a.txt.png" and "A.JPG" pass |
| FlaskApp.RefusedFileExamples | backend/flaskapp.py:26 | "a.png.txt", "png" and "x." are refused |
| FlaskApp.AnalyzeParkingImage | backend/flaskapp.py:28-64 | the mock analysis is stamped with the current time |
| FlaskApp.MockAnalysisConsistent | backend/flaskapp.py:44-62 | filled + empty = total, occupancy = filled / total × 100, ids 1 to 10 in order, and the list holds 7 filled and 3 empty |
| FlaskApp.StoredName | backend/flaskapp.py:99 | the stored name starts with the location id and ends with the uploaded file name |
| FlaskApp.AnalyzeParking | backend/flaskapp.py:88-116 | in order: no file part, then an empty name, then a refused extension (or no name) each give 400 with their message; otherwise uploads/loc_ts_name and results/loc_ts_results.json, with location "unknown" by default |
| FlaskApp.AnalyzeRepliesSuccessOr400 | backend/flaskapp.py:88-116 | every rejection is a 400 with one of the three messages |
| FlaskApp.EmptyNameBeforeExtension | backend/flaskapp.py:92-95 | an empty name reports "No file selected", although it would also fail the whitelist |
| FlaskApp.StoredNameKeepsExtension | backend/flaskapp.py:99 | the stored name passes the whitelist exactly when the uploaded name does |
| FlaskApp.UploadStaysInFolder | backend/flaskapp.py:98-100 | a location id not starting with a separator makes the upload path `uploads`, `\` and then the stored name, which embeds the raw location id and file name and may itself hold separators |
| FlaskApp.StoredNameNoSep | backend/flaskapp.py:98-99 | the stored name has no separator when neither the location id nor the upload's name has one |
| FlaskApp.UploadDirectlyInFolder | backend/flaskapp.py:98-100 | when neither the location id nor the upload's name holds a separator, the upload's directory is exactly uploads/ and its base name the stored name |
| FlaskApp.RootedLocationLeavesFolder | backend/flaskapp.py:100 | a location id starting with a separator makes `os.path.join` drop uploads/ |
| FlaskApp.OrElse | backend/flaskapp.py:143-144 | `x or default` keeps a non-empty value and replaces a missing or empty one |
| FlaskApp.GetStatistics | backend/flaskapp.py:131-152 | 400 "location_id parameter is required" exactly when location_id is missing or empty; the period defaults to 'all time' and 'current date' |
| FlaskApp.GetCurrentStatus | backend/flaskapp.py:165-181 | the same refusal; otherwise a status for that location, dated now, whose counts agree |
| FlaskApp.QueryEndpointsAgree | backend/flaskapp.py:167-168 | the two query endpoints refuse exactly the same queries, with the same error |
| Text.FieldsOfUnwords | model/DrawBoxesFromTxt.py:16 | `split()` of tokens joined by spaces gives back the tokens |
| Text.LinesOfTerminated | model/DrawBoxesFromTxt.py:15 | iterating a text of "\n"-terminated lines gives back those lines |
| Text.ParseIntOfIntToString | model/DrawBoxesFromTxt.py:17 | `int(str(n)) == n` |
| Text.ParseFloatOfIntToString | model/DrawBoxesFromTxt.py:17 | `float(str(n)) == n` for an integer `n` |
| Text.ParseIntRejectsDot | model/DrawBoxesFromTxt.py:17 | `int()` refuses any text containing a '.' |
| Text.ParseEach | parkingSpotTrack.py:15-22 | parsing a file succeeds with one value per line, or fails with the error of its first failing line |
| Text.AfterLast | model/DrawBoxesFromTxt.py:29 | `split("/")[-1]` is a suffix without '/' that starts the string or follows a '/' |
| Text.ReplaceAllSuffix | model/ModelTest.py:142 | `replace` rewrites a pattern that occurs only as the suffix |
| PyPath.Basename | backend/newer.py:58 | the base name is a suffix of the path without separators |
| PyPath.BasenameIsFinalComponent | backend/newer.py:58 | the base name is the whole final component: it is the whole path, or a separator precedes it |
| PyPath.SplitExt | backend/newer.py:58 | `splitext` splits the path into a root and an extension that starts with '.' and has no other '.' or separator; an extension is split off only when the root's part of the final component holds a character other than '.' (leading dots stay in the root) |
| PyPath.SplitExtFindsExtension | backend/newer.py:58 | a '.' in the final component with a non-dot character before it there always yields an extension |
| PyPath.Join | backend/newer.py:60 | `join` returns a rooted second part as is; otherwise it inserts `\` exactly when the first part is non-empty and does not end in a separator, and concatenates the parts when it is empty or does |
| PyPath.SplitExtOfSuffix | backend/newer.py:58 | `s.e` splits into `s` and `.e` |
| PyPath.BasenameOfJoin | backend/newer.py:60 | the base name of a joined file name is that file name |

## Left out

- The detector's construction, weights and forward pass, and the training loop (parkingSpotTrack.py:68-131). These are foreign code; the model takes the detector's output as a parameter.
- Pixels. Loading, colour conversion (`cvtColor`), saving and displaying images (`display_image`, `plt.show`) are not modelled; an image is its size and the list of drawing calls made on it.
- `cv2.LINE_AA` and the font argument of the text calls, which do not affect the modelled plan.
- Floating-point formatting (`str(float)`, tensor printing, `:.2f`). These are opaque texts, or the `format2` parameter.
- Text parsing beyond the modelled subset: Unicode whitespace in `split()`, underscores in `int()` and `float()` (`float("1_0")` is 10.0), and exponents, `inf` and `nan` in `float()`. The model reports such text as not a number. None of these occurs in the lines the writers produce.
- `str.lower()` is modelled on ASCII letters only; other characters are kept as they are. This does not change the whitelist verdict, whose extensions are ASCII.
- Drive letters and UNC paths in `ntpath`.
- Flask itself: routing, CORS, `jsonify`, `file.save`, `json.dump`, the folder creation at start-up, `app.run`, and the `/api/health` route, which returns a constant reply.
- ParkingSpotTrack.GetItem: it does not model `Image.open` failing or the optional `transform`.
- ModelTest.AnnotateAll: it records which files are drawn, not whether they exist when `merge_images` later opens them.
- backend/camera_simulator.py, backend/textanalysis.py and the frontend. They are not part of this model.
