/**
 * model/DrawBoxesFromTxt.py: read the detection log back, keep the records
 * of one image, and draw each box with its label (green for label 1, red
 * otherwise) before saving `<image file name>_annotated.jpg`.
 */
module DrawBoxesFromTxt {
  import opened Wrappers
  import opened Text
  import opened PyPath
  import opened Drawing
  import opened Detections
  import opened DetectionLog

  /** A record `{"Box": [x_min, y_min, x_max, y_max], "Label": label}`. */
  datatype Loaded = Loaded(box: Box, labelId: int)

  /**
   * The fields of one line: its file name and record. The tuple on the left
   * of the assignment is evaluated left to right, so the first exception
   * wins: `parts[0]`, then `int(parts[2])`, then the four `float` calls. The
   * confidence field, `parts[1]`, is never read, and fields after the
   * seventh are ignored.
   */
  function ParseParts(parts: seq<string>): (r: Result<(string, Loaded), FieldError>)
    ensures parts == [] ==> r == Err(MissingField)
    ensures r.Ok? <==> (|parts| >= 7 && ParseInt(parts[2]).Some? && ParseFloat(parts[3]).Some?
      && ParseFloat(parts[4]).Some? && ParseFloat(parts[5]).Some? && ParseFloat(parts[6]).Some?)
    ensures r.Ok? ==> (r.value.0 == parts[0]
      && r.value.1 == Loaded(Box(ParseFloat(parts[3]).value, ParseFloat(parts[4]).value,
                                 ParseFloat(parts[5]).value, ParseFloat(parts[6]).value),
                             ParseInt(parts[2]).value))
  {
    if |parts| == 0 then Err(MissingField)
    else
      match IntField(parts, 2)
      case Err(e) => Err(e)
      case Ok(labelId) =>
        match FloatField(parts, 3)
        case Err(e) => Err(e)
        case Ok(xMin) =>
          match FloatField(parts, 4)
          case Err(e) => Err(e)
          case Ok(yMin) =>
            match FloatField(parts, 5)
            case Err(e) => Err(e)
            case Ok(xMax) =>
              match FloatField(parts, 6)
              case Err(e) => Err(e)
              case Ok(yMax) => Ok((parts[0], Loaded(Box(xMin, yMin, xMax, yMax), labelId)))
  }

  /** `line.strip().split()` and the tuple assignment. */
  function ParseLine(line: string): Result<(string, Loaded), FieldError> {
    ParseParts(Fields(line))
  }

  /**
   * The lines of a file parsed one by one with `parse`: the values of the
   * lines whose key is `key`, in file order, or the error of the first line
   * that fails to parse, whatever its key.
   */
  function Select<X, E>(parse: string -> Result<(string, X), E>, lines: seq<string>, key: string): Result<seq<X>, E>
    decreases |lines|
  {
    if lines == [] then Ok([])
    else
      match Select(parse, lines[..|lines| - 1], key)
      case Err(e) => Err(e)
      case Ok(kept) =>
        match parse(lines[|lines| - 1])
        case Err(e) => Err(e)
        case Ok(entry) => Ok(if entry.0 == key then kept + [entry.1] else kept)
  }

  /** Selecting one more line: the prefix's outcome, then that line's. */
  lemma SelectStep<X, E>(parse: string -> Result<(string, X), E>, lines: seq<string>, key: string, i: nat)
    requires i < |lines|
    ensures Select(parse, lines[..i + 1], key) ==
      match Select(parse, lines[..i], key)
      case Err(e) => Err(e)
      case Ok(kept) =>
        match parse(lines[i])
        case Err(e) => Err(e)
        case Ok(entry) => Ok(if entry.0 == key then kept + [entry.1] else kept)
  {
    assert lines[..i + 1][..i] == lines[..i];
  }

  /** Once a prefix of the file has failed, the whole file fails with the same error. */
  lemma {:induction false} SelectErrPersists<X, E>(parse: string -> Result<(string, X), E>, lines: seq<string>,
                                                   key: string, i: nat)
    requires i <= |lines| && Select(parse, lines[..i], key).Err?
    ensures Select(parse, lines, key) == Select(parse, lines[..i], key)
    decreases |lines| - i
  {
    if i < |lines| {
      var longer := lines[..i + 1];
      assert longer[..i] == lines[..i];
      SelectErrPersists(parse, lines, key, i + 1);
    } else {
      assert lines[..i] == lines;
    }
  }

  /** A file whose every line parses under `key` selects all the values, in order. */
  lemma {:induction false} SelectAllKeyed<X, E>(parse: string -> Result<(string, X), E>, lines: seq<string>,
                                                key: string, expected: seq<X>)
    requires |lines| == |expected|
    requires forall k :: 0 <= k < |lines| ==> parse(lines[k]) == Ok((key, expected[k]))
    ensures Select(parse, lines, key) == Ok(expected)
    decreases |lines|
  {
    if lines != [] {
      var n := |lines| - 1;
      assert forall k :: 0 <= k < n ==> lines[..n][k] == lines[k];
      SelectAllKeyed(parse, lines[..n], key, expected[..n]);
      assert expected[..n] + [expected[n]] == expected;
    }
  }

  /** A file whose every line parses under another key selects nothing. */
  lemma {:induction false} SelectNoneKeyed<X, E>(parse: string -> Result<(string, X), E>, lines: seq<string>, key: string)
    requires forall k :: 0 <= k < |lines| ==> parse(lines[k]).Ok? && parse(lines[k]).value.0 != key
    ensures Select(parse, lines, key) == Ok([])
    decreases |lines|
  {
    if lines != [] {
      var n := |lines| - 1;
      assert forall k :: 0 <= k < n ==> lines[..n][k] == lines[k];
      SelectNoneKeyed(parse, lines[..n], key);
    }
  }

  /**
   * `load_predictions` on the lines of the label file: the records of the
   * lines naming `imageName`, in file order, or the exception of the first
   * line that fails to parse, whichever image it names.
   */
  function Load(lines: seq<string>, imageName: string): Result<seq<Loaded>, FieldError> {
    Select(ParseLine, lines, imageName)
  }

  /** The `for line in f` loop of `load_predictions`. */
  method LoadPredictions(content: string, imageName: string) returns (r: Result<seq<Loaded>, FieldError>)
    ensures r == Load(Lines(content), imageName)
  {
    var lines := Lines(content);
    var predictions: seq<Loaded> := [];
    for i := 0 to |lines|
      invariant Select(ParseLine, lines[..i], imageName) == Ok(predictions)
    {
      SelectStep(ParseLine, lines, imageName, i);
      match ParseLine(lines[i])
      case Err(e) =>
        SelectErrPersists(ParseLine, lines, imageName, i + 1);
        return Err(e);
      case Ok(entry) =>
        if entry.0 == imageName {
          predictions := predictions + [entry.1];
        }
    }
    assert lines[..|lines|] == lines;
    r := Ok(predictions);
  }

  /** What the loader makes of a written record: the label, and the coordinates already truncated by the writer. */
  function ReadBackRecord(p: Prediction): Loaded {
    Loaded(Box(Trunc(p.box.xMin) as real, Trunc(p.box.yMin) as real,
               Trunc(p.box.xMax) as real, Trunc(p.box.yMax) as real), p.labelId)
  }

  /** A line written with the label in field 2 parses to the written name and record. */
  lemma ParseWrittenLine(layout: Layout, name: string, p: Prediction)
    requires !layout.LabelFirst? && Printable(layout, name, p)
    ensures ParseLine(LineText(layout, name, p)) == Ok((name, ReadBackRecord(p)))
  {
    FieldsOfLine(layout, name, p);
    ParseIntOfIntToString(p.labelId);
    ParseFloatOfIntToString(Trunc(p.box.xMin));
    ParseFloatOfIntToString(Trunc(p.box.yMin));
    ParseFloatOfIntToString(Trunc(p.box.xMax));
    ParseFloatOfIntToString(Trunc(p.box.yMax));
  }

  /**
   * The text one `compile_data` of backend/newer.py or model/newer.py writes
   * is read back, record for record, when the loader asks for that image,
   * and yields nothing when it asks for another.
   */
  lemma LoadReadsConfidenceFirstLog(layout: Layout, name: string, preds: seq<Prediction>, imageName: string)
    requires !layout.LabelFirst?
    requires forall i :: 0 <= i < |preds| ==> Printable(layout, name, preds[i])
    ensures imageName == name ==>
      Load(Lines(LogText(layout, name, preds)), imageName)
        == Ok(seq(|preds|, i requires 0 <= i < |preds| => ReadBackRecord(preds[i])))
    ensures imageName != name ==> Load(Lines(LogText(layout, name, preds)), imageName) == Ok([])
  {
    ReadBack(layout, name, preds);
    var lines := Lines(LogText(layout, name, preds));
    var expected := seq(|preds|, i requires 0 <= i < |preds| => ReadBackRecord(preds[i]));
    forall k | 0 <= k < |lines| ensures ParseLine(lines[k]) == Ok((name, expected[k])) {
      FieldsOfLine(layout, name, preds[k]);
      ParseWrittenLine(layout, name, preds[k]);
    }
    if imageName == name {
      SelectAllKeyed(ParseLine, lines, imageName, expected);
    } else {
      SelectNoneKeyed(ParseLine, lines, imageName);
    }
  }

  /**
   * The writers log an image under its stem, while the script asks for the
   * file name after the last '/', extension included: the log written for
   * `stem.ext` therefore yields nothing when read back for `stem.ext`.
   */
  lemma StemLogNotFoundByFileName(layout: Layout, stem: string, ext: string, preds: seq<Prediction>)
    requires !layout.LabelFirst?
    requires |stem| > 0 && stem[|stem| - 1] != '.' && NoSep(stem)
    requires NoSep(ext) && forall i :: 0 <= i < |ext| ==> ext[i] != '.'
    requires forall i :: 0 <= i < |preds| ==> Printable(layout, stem, preds[i])
    ensures Stem(stem + "." + ext) == stem
    ensures ImageFilename(stem + "." + ext) == stem + "." + ext
    ensures Load(Lines(LogText(layout, Stem(stem + "." + ext), preds)), ImageFilename(stem + "." + ext)) == Ok([])
  {
    var p := stem + "." + ext;
    NoSepAppend(stem, ".");
    NoSepAppend(stem + ".", ext);
    assert TailStart(p) == 0;
    assert Basename(p) == p;
    SplitExtOfSuffix(stem, ext);
    assert LastIndexOf(p, '/') == None;
    LoadReadsConfidenceFirstLog(layout, stem, preds, p);
  }

  /**
   * backend/nweeset.py puts the confidence in field 2. Whenever that field
   * is not an integer literal (every printed float has a '.', an exponent,
   * "inf" or "nan"), no log it writes with a record can be loaded, whatever
   * image is asked for.
   */
  lemma LoadRejectsLabelFirstLog(name: string, preds: seq<Prediction>, imageName: string)
    requires forall i :: 0 <= i < |preds| ==> Printable(LabelFirst, name, preds[i])
    requires forall i :: 0 <= i < |preds| ==> ParseInt(preds[i].confidence.floatText).None?
    ensures preds == [] ==> Load(Lines(LogText(LabelFirst, name, preds)), imageName) == Ok([])
    ensures preds != [] ==> Load(Lines(LogText(LabelFirst, name, preds)), imageName) == Err(NotANumber)
  {
    ReadBack(LabelFirst, name, preds);
    var lines := Lines(LogText(LabelFirst, name, preds));
    if preds != [] {
      var first := lines[..1];
      assert first[..0] == [];
      assert ParseLine(first[0]) == Err(NotANumber);
      SelectErrPersists(ParseLine, lines, imageName, 1);
    } else {
      assert lines == [];
    }
  }

  /** `str(label) == "1"` picks green; every other label is red. */
  function LabelColor(labelId: int): (c: Color)
    ensures labelId == 1 ==> c == Color(0, 255, 0)
    ensures labelId != 1 ==> c == Color(255, 0, 0)
  {
    IntToStringIsOne(labelId);
    if IntToString(labelId) == "1" then Color(0, 255, 0) else Color(255, 0, 0)
  }

  /** The rectangle and the label text drawn for one record. */
  function RecordCommands(p: Loaded): seq<DrawCommand> {
    var xMin, yMin := Trunc(p.box.xMin), Trunc(p.box.yMin);
    var color := LabelColor(p.labelId);
    [Rectangle(Point(xMin, yMin), Point(Trunc(p.box.xMax), Trunc(p.box.yMax)), color, 2),
     PutText(IntToString(p.labelId), Point(xMin, yMin - 5), 0.5, color, 1)]
  }

  /** All drawing calls of the script, record by record in load order. */
  function Annotations(ps: seq<Loaded>): (r: seq<DrawCommand>)
    ensures |r| == 2 * |ps|
    ensures forall k :: 0 <= k < |ps| ==> r[2 * k] == RecordCommands(ps[k])[0] && r[2 * k + 1] == RecordCommands(ps[k])[1]
    decreases |ps|
  {
    if ps == [] then []
    else Annotations(ps[..|ps| - 1]) + RecordCommands(ps[|ps| - 1])
  }

  /** Every label-1 record is drawn green and every other one red, rectangle and text alike. */
  lemma AnnotationColors(ps: seq<Loaded>, k: nat)
    requires k < |ps|
    ensures Annotations(ps)[2 * k].color == Annotations(ps)[2 * k + 1].color
    ensures Annotations(ps)[2 * k].color == (if ps[k].labelId == 1 then Color(0, 255, 0) else Color(255, 0, 0))
    ensures Annotations(ps)[2 * k + 1].text == IntToString(ps[k].labelId)
  {
  }

  /** The `for prediction in predictions` drawing loop. */
  method Annotate(image: Canvas, ps: seq<Loaded>)
    modifies image
    ensures image.marks == old(image.marks) + Annotations(ps)
  {
    for i := 0 to |ps|
      invariant image.marks == old(image.marks) + Annotations(ps[..i])
    {
      var p := ps[i];
      var cmds := RecordCommands(p);
      image.Draw(cmds[0]);
      image.Draw(cmds[1]);
      assert ps[..i + 1][..i] == ps[..i];
    }
    assert ps[..|ps|] == ps;
  }

  /** `image_path.split("/")[-1]`. */
  function ImageFilename(imagePath: string): string {
    AfterLast(imagePath, '/')
  }

  /** `os.path.join(output_dir, f"{image_filename}_annotated.jpg")`: the original extension stays in the name. */
  function OutputPath(outputDir: string, imageFilename: string): string {
    Join(outputDir, imageFilename + "_annotated.jpg")
  }

  lemma OutputFileName(outputDir: string, imageFilename: string)
    requires NoSep(imageFilename)
    ensures Basename(OutputPath(outputDir, imageFilename)) == imageFilename + "_annotated.jpg"
  {
    var name := imageFilename + "_annotated.jpg";
    assert NoSep(name) by {
      forall i | 0 <= i < |name| ensures !IsSep(name[i]) {
        if i >= |imageFilename| {
          assert name[i] == "_annotated.jpg"[i - |imageFilename|];
        }
      }
    }
    BasenameOfJoin(outputDir, name);
  }

  /**
   * The script: load the records of the image from the label file, draw
   * them on the image and name the output file. A label file that raises
   * leaves the image undrawn and nothing is saved.
   */
  method RunScript(imagePath: string, labelFile: string, image: Canvas, outputDir: string)
      returns (r: Result<string, FieldError>)
    modifies image
    ensures Load(Lines(labelFile), ImageFilename(imagePath)).Err? ==>
      r == Err(Load(Lines(labelFile), ImageFilename(imagePath)).error) && image.marks == old(image.marks)
    ensures Load(Lines(labelFile), ImageFilename(imagePath)).Ok? ==>
      r == Ok(OutputPath(outputDir, ImageFilename(imagePath)))
      && image.marks == old(image.marks) + Annotations(Load(Lines(labelFile), ImageFilename(imagePath)).value)
  {
    var imageFilename := ImageFilename(imagePath);
    var predictions := LoadPredictions(labelFile, imageFilename);
    if predictions.Err? {
      return Err(predictions.error);
    }
    Annotate(image, predictions.value);
    r := Ok(OutputPath(outputDir, imageFilename));
  }
}
