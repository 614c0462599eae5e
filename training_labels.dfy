/**
 * parkingSpotTrack.py without the training: the label file is grouped into
 * an insertion-ordered dictionary from file name to its boxes, and the
 * dataset turns one file name's boxes into a training target.
 */
module ParkingSpotTrack {
  import opened Wrappers
  import opened Text
  import opened PyPath
  import opened Detections

  /** The tuple `(classification, (x1, y1, x2, y2))` kept per line. */
  datatype LabelBox = LabelBox(classification: string, box: Box)

  /**
   * The assignments of the parse loop, statement by statement: `parts[0]`,
   * `parts[1]`, then `float` of fields 2 to 5. Fields after the sixth are
   * ignored.
   */
  function ParseParts(parts: seq<string>): (r: Result<(string, LabelBox), FieldError>)
    ensures |parts| < 2 ==> r == Err(MissingField)
    ensures r.Ok? <==> (|parts| >= 6 && ParseFloat(parts[2]).Some? && ParseFloat(parts[3]).Some?
      && ParseFloat(parts[4]).Some? && ParseFloat(parts[5]).Some?)
    ensures r.Ok? ==> (r.value.0 == parts[0] && r.value.1.classification == parts[1]
      && r.value.1.box == Box(ParseFloat(parts[2]).value, ParseFloat(parts[3]).value,
                              ParseFloat(parts[4]).value, ParseFloat(parts[5]).value))
  {
    if |parts| < 2 then Err(MissingField)
    else
      match FloatField(parts, 2)
      case Err(e) => Err(e)
      case Ok(x1) =>
        match FloatField(parts, 3)
        case Err(e) => Err(e)
        case Ok(y1) =>
          match FloatField(parts, 4)
          case Err(e) => Err(e)
          case Ok(x2) =>
            match FloatField(parts, 5)
            case Err(e) => Err(e)
            case Ok(y2) => Ok((parts[0], LabelBox(parts[1], Box(x1, y1, x2, y2))))
  }

  /** `parts = line.split()` and the assignments. */
  function ParseLine(line: string): Result<(string, LabelBox), FieldError> {
    ParseParts(Fields(line))
  }

  predicate Distinct(s: seq<string>) {
    forall i, j :: 0 <= i < j < |s| ==> s[i] != s[j]
  }

  /** A Python dict from file name to boxes: its keys in insertion order and its entries. */
  datatype Grouping = Grouping(keys: seq<string>, lists: map<string, seq<LabelBox>>)

  predicate WellFormed(g: Grouping) {
    Distinct(g.keys) && (forall k :: k in g.lists ==> k in g.keys) && (forall k :: k in g.keys ==> k in g.lists)
  }

  /** `if filename not in d: d[filename] = []` followed by `d[filename].append(bounding_box)`. */
  function Add(g: Grouping, filename: string, b: LabelBox): (r: Grouping)
    requires WellFormed(g)
    ensures WellFormed(r)
  {
    if filename in g.lists then Grouping(g.keys, g.lists[filename := g.lists[filename] + [b]])
    else Grouping(g.keys + [filename], g.lists[filename := [b]])
  }

  /** The dictionary after the loop has run over `entries`, starting from `{}`. */
  function Group(entries: seq<(string, LabelBox)>): (g: Grouping)
    ensures WellFormed(g)
    decreases |entries|
  {
    if entries == [] then Grouping([], map[])
    else
      var n := |entries| - 1;
      Add(Group(entries[..n]), entries[n].0, entries[n].1)
  }

  /** The file names of the entries, in file order. */
  function Names(entries: seq<(string, LabelBox)>): (r: seq<string>)
    ensures |r| == |entries| && forall i :: 0 <= i < |entries| ==> r[i] == entries[i].0
  {
    seq(|entries|, i requires 0 <= i < |entries| => entries[i].0)
  }

  /** The boxes of the entries naming `filename`, in file order. */
  function BoxesFor(entries: seq<(string, LabelBox)>, filename: string): seq<LabelBox>
    decreases |entries|
  {
    if entries == [] then []
    else
      var n := |entries| - 1;
      BoxesFor(entries[..n], filename) + (if entries[n].0 == filename then [entries[n].1] else [])
  }

  /** The index of the first occurrence of `x` in `s`. */
  function FirstIndex(s: seq<string>, x: string): (i: nat)
    requires x in s
    ensures i < |s| && s[i] == x && forall j :: 0 <= j < i ==> s[j] != x
    decreases |s|
  {
    if s[0] == x then 0 else 1 + FirstIndex(s[1..], x)
  }

  lemma FirstIndexOfPrefix(s: seq<string>, n: nat, x: string)
    requires n <= |s| && x in s[..n]
    ensures FirstIndex(s, x) == FirstIndex(s[..n], x)
  {
    var i := FirstIndex(s[..n], x);
    var j := FirstIndex(s, x);
    assert s[..n][i] == s[i];
  }

  /** The dictionary's keys are the distinct file names of the label file. */
  lemma {:induction false} GroupKeys(entries: seq<(string, LabelBox)>)
    ensures forall k :: k in Group(entries).keys <==> k in Names(entries)
    decreases |entries|
  {
    if entries != [] {
      var n := |entries| - 1;
      var prefix := entries[..n];
      GroupKeys(prefix);
      var g0 := Group(prefix);
      var g := Group(entries);
      var names := Names(entries);
      var names0 := Names(prefix);
      assert names0 == names[..n];
      var filename := entries[n].0;
      assert g == Add(g0, filename, entries[n].1);
      forall k | k in g.keys ensures k in names {
        if k != filename {
          assert k in g0.keys;
          var i := FirstIndex(names0, k);
          assert names[i] == k;
        } else {
          assert names[n] == k;
        }
      }
      forall k | k in names ensures k in g.keys {
        var i :| 0 <= i < |names| && names[i] == k;
        if i < n {
          assert names0[i] == k;
        }
      }
    }
  }

  /** The dictionary's keys come in the order of their first appearance in the label file. */
  lemma {:induction false} GroupOrder(entries: seq<(string, LabelBox)>)
    ensures forall k :: k in Group(entries).keys ==> k in Names(entries)
    ensures forall i, j :: 0 <= i < j < |Group(entries).keys| ==>
      FirstIndex(Names(entries), Group(entries).keys[i]) < FirstIndex(Names(entries), Group(entries).keys[j])
    decreases |entries|
  {
    GroupKeys(entries);
    if entries != [] {
      var n := |entries| - 1;
      var prefix := entries[..n];
      GroupOrder(prefix);
      GroupKeys(prefix);
      var g0 := Group(prefix);
      var g := Group(entries);
      var names := Names(entries);
      var names0 := Names(prefix);
      assert names0 == names[..n];
      var filename := entries[n].0;
      assert g == Add(g0, filename, entries[n].1);
      forall i, j | 0 <= i < j < |g.keys|
        ensures FirstIndex(names, g.keys[i]) < FirstIndex(names, g.keys[j])
      {
        assert g.keys[i] == g0.keys[i];
        FirstIndexOfPrefix(names, n, g.keys[i]);
        if j < |g0.keys| {
          assert g.keys[j] == g0.keys[j];
          FirstIndexOfPrefix(names, n, g.keys[j]);
        } else {
          assert g.keys[j] == filename && filename !in g0.keys;
          assert filename !in names0;
          assert names[n] == filename;
        }
      }
    }
  }

  /** Each file name's list holds the boxes of the lines naming it, in file order; other names have none. */
  lemma {:induction false} GroupLists(entries: seq<(string, LabelBox)>)
    ensures forall k :: BoxesFor(entries, k) == if k in Group(entries).lists then Group(entries).lists[k] else []
    decreases |entries|
  {
    if entries != [] {
      var n := |entries| - 1;
      var prefix := entries[..n];
      GroupLists(prefix);
      var g0 := Group(prefix);
      var g := Group(entries);
      var (filename, b) := entries[n];
      assert g == Add(g0, filename, b);
      forall k ensures BoxesFor(entries, k) == if k in g.lists then g.lists[k] else [] {
        assert BoxesFor(entries, k) == BoxesFor(prefix, k) + (if filename == k then [b] else []);
      }
    }
  }

  lemma {:induction false} DistinctCardinality(s: seq<string>)
    requires Distinct(s)
    ensures |set x | x in s| == |s|
    decreases |s|
  {
    if s != [] {
      var n := |s| - 1;
      var p := s[..n];
      assert Distinct(p);
      DistinctCardinality(p);
      assert (set x | x in s) == (set x | x in p) + {s[n]};
      assert s[n] !in p;
    }
  }

  /** `len(dataset)`, the number of keys, is the number of distinct file names in the label file. */
  lemma GroupSize(entries: seq<(string, LabelBox)>)
    ensures |Group(entries).keys| == |set k | k in Names(entries)|
  {
    GroupKeys(entries);
    DistinctCardinality(Group(entries).keys);
    assert (set k | k in Group(entries).keys) == (set k | k in Names(entries));
  }

  lemma GroupStep(entries: seq<(string, LabelBox)>, entry: (string, LabelBox))
    ensures Group(entries + [entry]) == Add(Group(entries), entry.0, entry.1)
  {
    assert (entries + [entry])[..|entries|] == entries;
  }

  /** The dictionary the label file yields, or the exception of its first malformed line. */
  function LabelFile(lines: seq<string>): Result<Grouping, FieldError> {
    match ParseEach(ParseLine, lines)
    case Err(e) => Err(e)
    case Ok(entries) => Ok(Group(entries))
  }

  /** The two statements that put one entry into `bounding_boxes_by_image`, updating the dict in place. */
  method Append(keys: seq<string>, lists: map<string, seq<LabelBox>>, filename: string, boundingBox: LabelBox)
      returns (keys': seq<string>, lists': map<string, seq<LabelBox>>)
    requires WellFormed(Grouping(keys, lists))
    ensures Grouping(keys', lists') == Add(Grouping(keys, lists), filename, boundingBox)
  {
    keys', lists' := keys, lists;
    if filename !in lists' {
      keys' := keys' + [filename];
      lists' := lists'[filename := []];
    }
    lists' := lists'[filename := lists'[filename] + [boundingBox]];
    if filename !in lists {
      assert [] + [boundingBox] == [boundingBox];
      assert lists' == lists[filename := [boundingBox]];
    }
  }

  /** A line that parses extends both the parsed entries and the dict built from them. */
  lemma ReadStep(lines: seq<string>, i: nat, entries: seq<(string, LabelBox)>, entry: (string, LabelBox))
    requires i < |lines| && ParseEach(ParseLine, lines[..i]) == Ok(entries) && ParseLine(lines[i]) == Ok(entry)
    ensures ParseEach(ParseLine, lines[..i + 1]) == Ok(entries + [entry])
    ensures Group(entries + [entry]) == Add(Group(entries), entry.0, entry.1)
  {
    ParseEachStep(ParseLine, lines, i);
    GroupStep(entries, entry);
  }

  /** A line that fails to parse after a prefix that parsed is the file's error. */
  lemma ReadFails(lines: seq<string>, i: nat, e: FieldError)
    requires i < |lines| && ParseEach(ParseLine, lines[..i]).Ok? && ParseLine(lines[i]) == Err(e)
    ensures LabelFile(lines) == Err(e)
  {
    ParseEachStep(ParseLine, lines, i);
    ParseEachErrPersists(ParseLine, lines, i + 1);
  }

  /** The top-level loop `for line in f` that fills `bounding_boxes_by_image`. */
  method ReadLabelFile(content: string) returns (r: Result<Grouping, FieldError>)
    ensures r == LabelFile(Lines(content))
  {
    var lines := Lines(content);
    var keys: seq<string> := [];
    var lists: map<string, seq<LabelBox>> := map[];
    ghost var entries: seq<(string, LabelBox)> := [];
    for i := 0 to |lines|
      invariant ParseEach(ParseLine, lines[..i]) == Ok(entries)
      invariant Grouping(keys, lists) == Group(entries)
    {
      match ParseLine(lines[i])
      case Err(e) =>
        ReadFails(lines, i, e);
        return Err(e);
      case Ok(entry) =>
        keys, lists := Append(keys, lists, entry.0, entry.1);
        ReadStep(lines, i, entries, entry);
        entries := entries + [entry];
    }
    assert lines[..|lines|] == lines;
    r := Ok(Grouping(keys, lists));
  }

  /** The images' folder of the dataset. */
  const ImageFolder: string := "./train_images"

  /** `ParkingSpaceDataset(bounding_boxes_by_image)`: `image_files` is the list of the dictionary's keys. */
  datatype Dataset = Dataset(imageFolder: string, boxesByImage: map<string, seq<LabelBox>>, imageFiles: seq<string>)

  function NewDataset(g: Grouping): Dataset {
    Dataset(ImageFolder, g.lists, g.keys)
  }

  predicate ValidDataset(ds: Dataset) {
    forall k :: k in ds.imageFiles ==> k in ds.boxesByImage
  }

  /** `__len__`. */
  function Len(ds: Dataset): nat {
    |ds.imageFiles|
  }

  /** The `target` dictionary of `__getitem__`. */
  datatype Target = Target(boxes: seq<Box>, labels: seq<int>, areas: seq<real>, iscrowd: seq<int>)

  /** `1 if box[0] == '1' else 2`. */
  function LabelOf(classification: string): int {
    if classification == "1" then 1 else 2
  }

  /** `(x2 - x1) * (y2 - y1)`. */
  function Area(b: Box): real {
    (b.xMax - b.xMin) * (b.yMax - b.yMin)
  }

  /** The four comprehensions of `__getitem__` over one image's boxes. */
  function TargetOf(bs: seq<LabelBox>): (t: Target)
    ensures |t.boxes| == |bs| && |t.labels| == |bs| && |t.areas| == |bs| && |t.iscrowd| == |bs|
    ensures forall i :: 0 <= i < |bs| ==> t.boxes[i] == bs[i].box && t.iscrowd[i] == 0
    ensures forall i :: 0 <= i < |bs| ==>
      (t.labels[i] == 1 <==> bs[i].classification == "1") && (t.labels[i] == 2 <==> bs[i].classification != "1")
    ensures forall i :: 0 <= i < |bs| ==> t.areas[i] == (bs[i].box.xMax - bs[i].box.xMin) * (bs[i].box.yMax - bs[i].box.yMin)
  {
    Target(seq(|bs|, i requires 0 <= i < |bs| => bs[i].box),
           seq(|bs|, i requires 0 <= i < |bs| => LabelOf(bs[i].classification)),
           seq(|bs|, i requires 0 <= i < |bs| => Area(bs[i].box)),
           seq(|bs|, i requires 0 <= i < |bs| => 0))
  }

  /**
   * `dataset[idx]`: the image path and the target, with Python's negative
   * indices counting from the end; `None` is the `IndexError` of an index
   * out of range. Opening and transforming the image is not modelled.
   */
  function GetItem(ds: Dataset, idx: int): (r: Option<(string, Target)>)
    requires ValidDataset(ds)
    ensures r.Some? <==> -(Len(ds) as int) <= idx < Len(ds)
    ensures r.Some? ==> r.value.0 == Join(ds.imageFolder, ds.imageFiles[if idx < 0 then idx + Len(ds) else idx])
    ensures r.Some? ==> r.value.1 == TargetOf(ds.boxesByImage[ds.imageFiles[if idx < 0 then idx + Len(ds) else idx]])
  {
    var n := |ds.imageFiles|;
    if idx < -n || idx >= n then None
    else
      var imageFile := ds.imageFiles[if idx < 0 then idx + n else idx];
      Some((Join(ds.imageFolder, imageFile), TargetOf(ds.boxesByImage[imageFile])))
  }

  /**
   * The dataset built from a label file serves, at every index, the image
   * whose name comes at that position in first-appearance order, with the
   * boxes of the lines naming it as its target boxes, in file order.
   */
  lemma DatasetItem(entries: seq<(string, LabelBox)>, idx: nat)
    requires idx < |Group(entries).keys|
    ensures ValidDataset(NewDataset(Group(entries)))
    ensures GetItem(NewDataset(Group(entries)), idx).Some?
    ensures GetItem(NewDataset(Group(entries)), idx).value.1 == TargetOf(BoxesFor(entries, Group(entries).keys[idx]))
    ensures GetItem(NewDataset(Group(entries)), idx).value.1.boxes
      == seq(|BoxesFor(entries, Group(entries).keys[idx])|,
             i requires 0 <= i < |BoxesFor(entries, Group(entries).keys[idx])| =>
               BoxesFor(entries, Group(entries).keys[idx])[i].box)
  {
    GroupLists(entries);
  }
}
