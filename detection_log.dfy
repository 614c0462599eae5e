/**
 * The detection log: one space-separated line per prediction. Three writers
 * disagree on the layout: backend/newer.py and model/newer.py write
 * `name confidence label xmin ymin xmax ymax` (model/newer.py printing the
 * score as a tensor), backend/nweeset.py writes
 * `name label confidence xmin ymin xmax ymax`. Coordinates go through `int()`.
 */
module DetectionLog {
  import opened Text
  import opened Detections

  datatype Layout =
    | ConfidenceFirst         // backend/newer.py
    | TensorConfidenceFirst   // model/newer.py
    | LabelFirst              // backend/nweeset.py

  /** How the writer prints the score: the float, or the tensor element it came from. */
  function ConfidenceToken(layout: Layout, s: Score): string {
    if layout == TensorConfidenceFirst then s.tensorText else s.floatText
  }

  /** The four truncated box coordinates, printed. */
  function CoordinateFields(b: Box): (r: seq<string>)
    ensures |r| == 4
  {
    [IntToString(Trunc(b.xMin)), IntToString(Trunc(b.yMin)),
     IntToString(Trunc(b.xMax)), IntToString(Trunc(b.yMax))]
  }

  /** The seven fields of one log line. */
  function LineFields(layout: Layout, name: string, p: Prediction): (r: seq<string>)
    ensures |r| == 7 && r[0] == name && r[3..] == CoordinateFields(p.box)
    ensures layout.LabelFirst? ==>
      r[1] == IntToString(p.labelId) && r[2] == ConfidenceToken(layout, p.confidence)
    ensures !layout.LabelFirst? ==>
      r[1] == ConfidenceToken(layout, p.confidence) && r[2] == IntToString(p.labelId)
  {
    var conf := ConfidenceToken(layout, p.confidence);
    var labelText := IntToString(p.labelId);
    if layout.LabelFirst? then [name, labelText, conf] + CoordinateFields(p.box)
    else [name, conf, labelText] + CoordinateFields(p.box)
  }

  /** One log line, without its "\n". */
  function LineText(layout: Layout, name: string, p: Prediction): string {
    Unwords(LineFields(layout, name, p))
  }

  function LineTexts(layout: Layout, name: string, preds: seq<Prediction>): (r: seq<string>)
    ensures |r| == |preds|
    ensures forall i :: 0 <= i < |preds| ==> r[i] == LineText(layout, name, preds[i])
  {
    Mapped(p => LineText(layout, name, p), preds)
  }

  /** The text one `compile_data` call writes: a "\n"-terminated line per prediction, in list order. */
  function LogText(layout: Layout, name: string, preds: seq<Prediction>): string {
    Terminated(LineTexts(layout, name, preds))
  }

  /** The name and the printed score are single fields. */
  predicate Printable(layout: Layout, name: string, p: Prediction) {
    IsToken(name) && IsToken(ConfidenceToken(layout, p.confidence))
  }

  lemma FieldsAreTokens(layout: Layout, name: string, p: Prediction)
    requires Printable(layout, name, p)
    ensures forall k :: 0 <= k < 7 ==> IsToken(LineFields(layout, name, p)[k])
  {
    IntToStringIsToken(p.labelId);
    IntToStringIsToken(Trunc(p.box.xMin));
    IntToStringIsToken(Trunc(p.box.yMin));
    IntToStringIsToken(Trunc(p.box.xMax));
    IntToStringIsToken(Trunc(p.box.yMax));
  }

  /** Splitting a written line gives back exactly its seven fields. */
  lemma FieldsOfLine(layout: Layout, name: string, p: Prediction)
    requires Printable(layout, name, p)
    ensures Fields(LineText(layout, name, p)) == LineFields(layout, name, p)
  {
    FieldsAreTokens(layout, name, p);
    FieldsOfUnwords(LineFields(layout, name, p));
  }

  lemma TokenHasNoLineBreak(t: string)
    requires IsToken(t)
    ensures NoLineBreak(t)
  {
    forall i | 0 <= i < |t| ensures !IsLineBreak(t[i]) {
      assert !IsSpace(t[i]);
    }
  }

  lemma {:induction false} UnwordsNoLineBreak(ts: seq<string>)
    requires forall k :: 0 <= k < |ts| ==> IsToken(ts[k])
    ensures NoLineBreak(Unwords(ts))
    decreases |ts|
  {
    if |ts| == 1 {
      TokenHasNoLineBreak(ts[0]);
    } else if |ts| > 1 {
      TokenHasNoLineBreak(ts[0]);
      UnwordsNoLineBreak(ts[1..]);
    }
  }

  /**
   * Reading the text of one `compile_data` call line by line and splitting
   * each line gives, per prediction and in order, its seven fields.
   */
  lemma ReadBack(layout: Layout, name: string, preds: seq<Prediction>)
    requires forall i :: 0 <= i < |preds| ==> Printable(layout, name, preds[i])
    ensures |Lines(LogText(layout, name, preds))| == |preds|
    ensures forall i :: 0 <= i < |preds| ==>
      Fields(Lines(LogText(layout, name, preds))[i]) == LineFields(layout, name, preds[i])
  {
    var ls := LineTexts(layout, name, preds);
    forall k | 0 <= k < |ls| ensures NoLineBreak(ls[k]) {
      FieldsAreTokens(layout, name, preds[k]);
      UnwordsNoLineBreak(LineFields(layout, name, preds[k]));
    }
    LinesOfTerminated(ls);
    forall i | 0 <= i < |preds|
      ensures Fields(Lines(LogText(layout, name, preds))[i]) == LineFields(layout, name, preds[i])
    {
      FieldsOfLine(layout, name, preds[i]);
    }
  }

  /** A text file's content. */
  class LogFile {
    var content: string

    /** The file as it is before the script opens it. */
    constructor (initial: string)
      ensures content == initial
    {
      content := initial;
    }

    /** `open(path, "w")` truncates the file. */
    method OpenForWrite()
      modifies this
      ensures content == ""
    {
      content := "";
    }

    /** `f.write(s)` on a file opened with "a" or "w". */
    method Write(s: string)
      modifies this
      ensures content == old(content) + s
    {
      content := content + s;
    }
  }

  lemma LogTextOfPrefix(layout: Layout, name: string, preds: seq<Prediction>, i: nat)
    requires i < |preds|
    ensures LogText(layout, name, preds[..i + 1])
      == LogText(layout, name, preds[..i]) + (LineText(layout, name, preds[i]) + "\n")
  {
    var line := LineText(layout, name, preds[i]);
    MappedSnoc(p => LineText(layout, name, p), preds, i);
    TerminatedAppend(LineTexts(layout, name, preds[..i]), [line]);
    assert [line][1..] == [];
    assert line + "\n" + "" == line + "\n";
  }

  /** The loop `for prediction in predictions: f.write(...)` of every `compile_data`. */
  method WriteLines(f: LogFile, layout: Layout, name: string, preds: seq<Prediction>)
    modifies f
    ensures f.content == old(f.content) + LogText(layout, name, preds)
  {
    for i := 0 to |preds|
      invariant f.content == old(f.content) + LogText(layout, name, preds[..i])
    {
      var line := LineText(layout, name, preds[i]) + "\n";
      f.Write(line);
      LogTextOfPrefix(layout, name, preds, i);
      ConcatAssociative(old(f.content), LogText(layout, name, preds[..i]), line);
    }
    assert preds[..|preds|] == preds;
  }

  /** Writing two lists in one go writes the text of the first, then that of the second. */
  lemma LogTextAppend(layout: Layout, name: string, a: seq<Prediction>, b: seq<Prediction>)
    ensures LogText(layout, name, a + b) == LogText(layout, name, a) + LogText(layout, name, b)
  {
    var left := LineTexts(layout, name, a);
    var right := LineTexts(layout, name, b);
    MappedAppend(p => LineText(layout, name, p), a, b);
    TerminatedAppend(left, right);
  }
}
