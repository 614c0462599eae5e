/**
 * backend/nweeset.py: predict on every entry of a folder and append each
 * image's records to the output file as `name.jpg label confidence xmin
 * ymin xmax ymax`. The crop function and its call site sit inside string
 * literals, so no refinement ever happens.
 */
module Nweeset {
  import opened Wrappers
  import opened PyPath
  import opened Detections
  import opened DetectionLog
  import opened Text

  /** The name field: the stem of the path with ".jpg" put back, whatever the real extension. */
  function LogName(imagePath: string): string {
    Stem(imagePath) + ".jpg"
  }

  /** `compile_data`: opens the output file with "a" and writes one line per record, label before confidence. */
  method CompileData(log: LogFile, imagePath: string, preds: seq<Prediction>)
    modifies log
    ensures log.content == old(log.content) + LogText(LabelFirst, LogName(imagePath), preds)
  {
    WriteLines(log, LabelFirst, LogName(imagePath), preds);
  }

  /** `f"{folder_path}\\{image_path}"`. */
  function EntryPath(folder: string, name: string): string {
    folder + [Sep] + name
  }

  /** Every entry of `names` opens as an image. */
  ghost predicate AllOpen(folder: string, names: seq<string>, detect: string -> Option<DetectorOutput>) {
    forall k :: 0 <= k < |names| ==> detect(EntryPath(folder, names[k])).Some?
  }

  /** The text one entry contributes: its own `predict` output, unrefined, under its log name. */
  function EntryText(folder: string, name: string, detect: string -> Option<DetectorOutput>): string
    requires WellFormedDetector(detect)
    requires detect(EntryPath(folder, name)).Some?
  {
    var path := EntryPath(folder, name);
    LogText(LabelFirst, LogName(path), Records(detect(path).value))
  }

  /** The text the entries `names` add to the output file, one entry after another in listing order. */
  ghost function FolderText(folder: string, names: seq<string>, detect: string -> Option<DetectorOutput>): string
    requires WellFormedDetector(detect)
    requires AllOpen(folder, names, detect)
  {
    ConcatMap(EntryTextOf(folder, detect), names)
  }

  /** `EntryText` for one folder and detector, as a function of the entry. */
  ghost function EntryTextOf(folder: string, detect: string -> Option<DetectorOutput>): (f: string --> string)
    requires WellFormedDetector(detect)
    ensures forall name :: detect(EntryPath(folder, name)).Some? ==>
      f.requires(name) && f(name) == EntryText(folder, name, detect)
  {
    name requires detect(EntryPath(folder, name)).Some? => EntryText(folder, name, detect)
  }

  lemma FolderTextOfPrefix(folder: string, names: seq<string>, i: nat, detect: string -> Option<DetectorOutput>)
    requires WellFormedDetector(detect)
    requires i < |names| && AllOpen(folder, names[..i], detect)
    requires detect(EntryPath(folder, names[i])).Some?
    ensures AllOpen(folder, names[..i + 1], detect)
    ensures FolderText(folder, names[..i + 1], detect)
      == FolderText(folder, names[..i], detect) + EntryText(folder, names[i], detect)
  {
    var longer := names[..i + 1];
    assert longer[..i] == names[..i];
    assert longer[i] == names[i];
  }

  /** One turn of `main`'s loop: `predict` on the entry, then `compile_data`; `ok` is false where `Image.open` raises. */
  method ProcessEntry(folder: string, name: string, detect: string -> Option<DetectorOutput>, log: LogFile)
      returns (ok: bool)
    requires WellFormedDetector(detect)
    modifies log
    ensures ok == detect(EntryPath(folder, name)).Some?
    ensures !ok ==> log.content == old(log.content)
    ensures ok ==> log.content == old(log.content) + EntryText(folder, name, detect)
  {
    var imagePath := EntryPath(folder, name);
    var out := detect(imagePath);
    if out.None? {
      return false;
    }
    var allPredictions := Predict(out.value);
    CompileData(log, imagePath, allPredictions);
    ok := true;
  }

  /** The loop invariant of `main` survives one entry that opens. */
  lemma RunStep(folder: string, names: seq<string>, i: nat, detect: string -> Option<DetectorOutput>,
                base: string, before: string, after: string)
    requires WellFormedDetector(detect)
    requires i < |names| && AllOpen(folder, names[..i], detect)
    requires detect(EntryPath(folder, names[i])).Some?
    requires before == base + FolderText(folder, names[..i], detect)
    requires after == before + EntryText(folder, names[i], detect)
    ensures AllOpen(folder, names[..i + 1], detect)
    ensures after == base + FolderText(folder, names[..i + 1], detect)
  {
    FolderTextOfPrefix(folder, names, i, detect);
    var done := FolderText(folder, names[..i], detect);
    var next := EntryText(folder, names[i], detect);
    ConcatAssociative(base, done, next);
  }

  /**
   * `main`: one `predict` and one `compile_data` per folder entry, in
   * listing order. An entry that does not open as an image raises and ends
   * the run; the lines of the entries before it stay in the file.
   */
  method RunMain(folder: string, names: seq<string>, detect: string -> Option<DetectorOutput>, log: LogFile)
      returns (processed: nat)
    requires WellFormedDetector(detect)
    modifies log
    ensures processed <= |names|
    ensures AllOpen(folder, names[..processed], detect)
    ensures processed < |names| ==> detect(EntryPath(folder, names[processed])).None?
    ensures log.content == old(log.content) + FolderText(folder, names[..processed], detect)
  {
    processed := 0;
    while processed < |names|
      invariant processed <= |names|
      invariant AllOpen(folder, names[..processed], detect)
      invariant log.content == old(log.content) + FolderText(folder, names[..processed], detect)
    {
      ghost var before := log.content;
      var ok := ProcessEntry(folder, names[processed], detect, log);
      if !ok {
        return;
      }
      RunStep(folder, names, processed, detect, old(log.content), before, log.content);
      processed := processed + 1;
    }
  }

  /** The text of a listing is the text of any split of it, first part first. */
  lemma FolderTextAppend(folder: string, a: seq<string>, b: seq<string>, detect: string -> Option<DetectorOutput>)
    requires WellFormedDetector(detect)
    requires AllOpen(folder, a + b, detect)
    ensures AllOpen(folder, a, detect) && AllOpen(folder, b, detect)
    ensures FolderText(folder, a + b, detect) == FolderText(folder, a, detect) + FolderText(folder, b, detect)
  {
    var ab := a + b;
    forall k | 0 <= k < |a| ensures detect(EntryPath(folder, a[k])).Some? {
      assert ab[k] == a[k];
    }
    forall k | 0 <= k < |b| ensures detect(EntryPath(folder, b[k])).Some? {
      assert ab[|a| + k] == b[k];
    }
    ConcatMapAppend(EntryTextOf(folder, detect), a, b);
  }

  /** An entry `s.e` is logged under the name `s.jpg`. */
  lemma EntryLogName(folder: string, s: string, e: string)
    requires NoSep(s) && |s| > 0 && s[|s| - 1] != '.'
    requires NoSep(e) && forall i :: 0 <= i < |e| ==> e[i] != '.'
    ensures LogName(EntryPath(folder, s + "." + e)) == s + ".jpg"
  {
    var name := s + "." + e;
    assert NoSep(name) by {
      assert forall i :: 0 <= i < |name| ==> name[i] == if i < |s| then s[i] else if i == |s| then '.' else e[i - |s| - 1];
    }
    BasenameOfChild(folder, name);
    SplitExtOfSuffix(s, e);
  }
}
