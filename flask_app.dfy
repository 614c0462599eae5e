/**
 * The request handling of backend/flaskapp.py once Flask, the clock and the
 * file system are taken away: the extension whitelist, the order in which
 * `/api/analyze` rejects an upload, the names it stores the upload and its
 * result under, the `location_id` checks of the two query endpoints, and the
 * fixed mock results the endpoints answer with.
 */
module FlaskApp {
  import opened Wrappers
  import opened Text
  import opened PyPath

  const UploadFolder: string := "uploads"
  const ResultsFolder: string := "results"
  const AllowedExtensions: set<string> := {"png", "jpg", "jpeg"}

  /** The status code of every rejection. */
  const BadRequest: nat := 400

  // ---------------------------------------------------------------------
  // The extension whitelist
  // ---------------------------------------------------------------------

  /** `i` is the position of the last '.' in `f`. */
  predicate IsLastDot(f: string, i: int) {
    0 <= i < |f| && f[i] == '.' && forall j :: i < j < |f| ==> f[j] != '.'
  }

  /**
   * `allowed_file`: the name contains a '.' and the text after the last one
   * (`rsplit('.', 1)[1]`), lower-cased, is a whitelisted extension.
   */
  function AllowedFile(filename: string): (ok: bool)
    ensures ok <==> exists i :: IsLastDot(filename, i) && Lower(filename[i + 1..]) in AllowedExtensions
  {
    match LastIndexOf(filename, '.')
    case None => false
    case Some(i) =>
      assert IsLastDot(filename, i);
      assert forall k :: IsLastDot(filename, k) ==> k == i;
      Lower(filename[i + 1..]) in AllowedExtensions
  }

  /** Knowing where the last '.' is decides the whitelist by the text after it. */
  lemma AllowedAtLastDot(f: string, i: int)
    requires IsLastDot(f, i)
    ensures AllowedFile(f) == (Lower(f[i + 1..]) in AllowedExtensions)
  {
    var k := LastIndexOf(f, '.');
    assert k.Some? && k.value == i;
  }

  /** Only the final extension matters: `stem.ext` is allowed exactly when `ext` is. */
  lemma AllowedFileByLastExtension(stem: string, ext: string)
    requires forall j :: 0 <= j < |ext| ==> ext[j] != '.'
    ensures AllowedFile(stem + "." + ext) <==> Lower(ext) in AllowedExtensions
  {
    var f := stem + "." + ext;
    assert IsLastDot(f, |stem|);
    assert f[|stem| + 1..] == ext;
    AllowedAtLastDot(f, |stem|);
  }

  /** A name without any '.' is never allowed. */
  lemma NoDotRejected(filename: string)
    requires forall j :: 0 <= j < |filename| ==> filename[j] != '.'
    ensures !AllowedFile(filename)
  {
  }

  /** Two names that lower-case alike are allowed alike: the check ignores case. */
  lemma AllowedFileIgnoresCase(f: string, g: string)
    requires Lower(f) == Lower(g)
    ensures AllowedFile(f) == AllowedFile(g)
  {
    LowerKeepsDots(f, g);
    match LastIndexOf(f, '.')
    case None =>
      NoDotRejected(f);
      NoDotRejected(g);
    case Some(i) =>
      LastDotAgrees(f, g, i);
      AllowedAtLastDot(f, i);
      AllowedAtLastDot(g, i);
  }

  /** Lower-casing neither makes nor removes a '.'. */
  lemma LowerKeepsDots(f: string, g: string)
    requires Lower(f) == Lower(g)
    ensures |f| == |g|
    ensures forall j :: 0 <= j < |f| ==> (f[j] == '.' <==> g[j] == '.')
  {
    forall j | 0 <= j < |f| ensures f[j] == '.' <==> g[j] == '.' {
      assert LowerChar(f[j]) == LowerChar(g[j]);
    }
  }

  /** Names that lower-case alike have their last '.' at the same place and the same extension after lower-casing. */
  lemma LastDotAgrees(f: string, g: string, i: int)
    requires Lower(f) == Lower(g) && IsLastDot(f, i)
    ensures IsLastDot(g, i) && Lower(f[i + 1..]) == Lower(g[i + 1..])
  {
    LowerKeepsDots(f, g);
    LowerSuffix(f, i + 1);
    LowerSuffix(g, i + 1);
  }

  lemma LowerSuffix(s: string, i: nat)
    requires i <= |s|
    ensures Lower(s[i..]) == Lower(s)[i..]
  {
  }

  /** Accepted edge cases: only the last extension counts, and case does not matter. */
  lemma AllowedFileExamples()
    ensures AllowedFile("a.txt.png")
    ensures AllowedFile("A.JPG")
  {
    AllowedAtLastDot("a.txt.png", 5);
    assert "a.txt.png"[6..] == "png";
    assert Lower("png") == "png";
    AllowedAtLastDot("A.JPG", 1);
    assert "A.JPG"[2..] == "JPG";
    assert Lower("JPG") == "jpg";
  }

  /** Refused edge cases: a whitelisted extension that is not the last one, no '.', and nothing after the '.'. */
  lemma RefusedFileExamples()
    ensures !AllowedFile("a.png.txt")
    ensures !AllowedFile("png")
    ensures !AllowedFile("x.")
  {
    AllowedAtLastDot("a.png.txt", 5);
    assert "a.png.txt"[6..] == "txt";
    assert Lower("txt")[0] == 't';
    NoDotRejected("png");
    AllowedAtLastDot("x.", 1);
    assert "x."[2..] == "";
  }

  // ---------------------------------------------------------------------
  // The mock analysis
  // ---------------------------------------------------------------------

  datatype SpotStatus = SpotStatus(id: int, status: string)

  /** The dictionary `analyze_parking_image` returns. */
  datatype Analysis = Analysis(
    totalSpots: int, filledSpots: int, emptySpots: int, occupancyRate: real,
    spotsStatus: seq<SpotStatus>, timestamp: string)

  /** How many spots carry `status`. */
  function CountStatus(spots: seq<SpotStatus>, status: string): (n: nat)
    ensures n <= |spots|
    decreases |spots|
  {
    if spots == [] then 0
    else CountStatus(spots[..|spots| - 1], status) + (if spots[|spots| - 1].status == status then 1 else 0)
  }

  /**
   * `analyze_parking_image`: the image read from `imagePath` is not used, and
   * the result is the fixed demonstration record stamped with `clock`, the
   * formatted current time.
   */
  function AnalyzeParkingImage(imagePath: string, clock: string): (r: Analysis)
    ensures r.timestamp == clock
  {
    Analysis(10, 7, 3, 70.0,
      [SpotStatus(1, "filled"), SpotStatus(2, "filled"), SpotStatus(3, "empty"),
       SpotStatus(4, "filled"), SpotStatus(5, "filled"), SpotStatus(6, "empty"),
       SpotStatus(7, "filled"), SpotStatus(8, "filled"), SpotStatus(9, "filled"),
       SpotStatus(10, "empty")],
      clock)
  }

  /** The counts of an analysis agree with each other and with its spot list. */
  predicate Consistent(a: Analysis) {
    && a.filledSpots + a.emptySpots == a.totalSpots
    && a.totalSpots > 0
    && a.occupancyRate == a.filledSpots as real / a.totalSpots as real * 100.0
    && |a.spotsStatus| == a.totalSpots
    && (forall i :: 0 <= i < |a.spotsStatus| ==> a.spotsStatus[i].id == i + 1)
    && CountStatus(a.spotsStatus, "filled") == a.filledSpots
    && CountStatus(a.spotsStatus, "empty") == a.emptySpots
  }

  /** The mock record is consistent: 7 + 3 spots of 10, 70 per cent, ids 1 to 10, and the list holds 7 filled and 3 empty. */
  lemma MockAnalysisConsistent(imagePath: string, clock: string)
    ensures Consistent(AnalyzeParkingImage(imagePath, clock))
  {
    var s := AnalyzeParkingImage(imagePath, clock).spotsStatus;
    assert s[..0] == [];
    assert CountStatus(s[..1], "filled") == 1 && CountStatus(s[..1], "empty") == 0 by { assert s[..1][..0] == s[..0]; }
    assert CountStatus(s[..2], "filled") == 2 && CountStatus(s[..2], "empty") == 0 by { assert s[..2][..1] == s[..1]; }
    assert CountStatus(s[..3], "filled") == 2 && CountStatus(s[..3], "empty") == 1 by { assert s[..3][..2] == s[..2]; }
    assert CountStatus(s[..4], "filled") == 3 && CountStatus(s[..4], "empty") == 1 by { assert s[..4][..3] == s[..3]; }
    assert CountStatus(s[..5], "filled") == 4 && CountStatus(s[..5], "empty") == 1 by { assert s[..5][..4] == s[..4]; }
    assert CountStatus(s[..6], "filled") == 4 && CountStatus(s[..6], "empty") == 2 by { assert s[..6][..5] == s[..5]; }
    assert CountStatus(s[..7], "filled") == 5 && CountStatus(s[..7], "empty") == 2 by { assert s[..7][..6] == s[..6]; }
    assert CountStatus(s[..8], "filled") == 6 && CountStatus(s[..8], "empty") == 2 by { assert s[..8][..7] == s[..7]; }
    assert CountStatus(s[..9], "filled") == 7 && CountStatus(s[..9], "empty") == 2 by { assert s[..9][..8] == s[..8]; }
    assert s[..10] == s;
    assert s[..10][..9] == s[..9];
  }

  // ---------------------------------------------------------------------
  // POST /api/analyze
  // ---------------------------------------------------------------------

  /** The `file` part of a multipart request; werkzeug leaves `filename` as `None` when the part names no file. */
  datatype FilePart = FilePart(filename: Option<string>)

  /** What `analyze_parking` reads from the request: `request.files['file']` and `request.form`. */
  datatype Upload = Upload(file: Option<FilePart>, form: map<string, string>)

  /** A JSON reply: the payload with status 200, or `{'error': message}` with a 4xx status. */
  datatype Reply<T> = Success(value: T) | Failure(status: nat, error: string)

  /** What a successful upload writes and answers: the saved image, the saved result and the result itself. */
  datatype Accepted = Accepted(uploadPath: string, resultPath: string, results: Analysis)

  /** `request.form.get('location_id', 'unknown')`. */
  function LocationOf(form: map<string, string>): string {
    if "location_id" in form then form["location_id"] else "unknown"
  }

  /** The stored image name `{location_id}_{timestamp}_{filename}`. */
  function StoredName(locationId: string, timestamp: int, filename: string): (r: string)
    ensures |r| > |locationId| + |filename|
    ensures r[..|locationId|] == locationId && r[|r| - |filename|..] == filename
  {
    locationId + "_" + IntToString(timestamp) + "_" + filename
  }

  /** The stored result name `{location_id}_{timestamp}_results.json`. */
  function ResultName(locationId: string, timestamp: int): string {
    locationId + "_" + IntToString(timestamp) + "_results.json"
  }

  /**
   * `analyze_parking`, with `timestamp` the value of `int(time.time())` and
   * `clock` the formatted current time. The checks run in order: no file
   * part, an empty file name, a name the whitelist refuses (also a part with
   * no name at all, whose `FileStorage` is falsy); otherwise the upload is
   * saved under uploads/ and its result under results/.
   */
  function AnalyzeParking(req: Upload, timestamp: int, clock: string): (r: Reply<Accepted>)
    ensures req.file.None? ==> r == Failure(BadRequest, "No file provided")
    ensures req.file.Some? && req.file.value.filename == Some("") ==> r == Failure(BadRequest, "No file selected")
    ensures (req.file.Some? && req.file.value.filename != Some("")
             && !(req.file.value.filename.Some? && AllowedFile(req.file.value.filename.value)))
      ==> r == Failure(BadRequest, "Invalid file type")
    ensures r.Success? <==>
      req.file.Some? && req.file.value.filename.Some? && AllowedFile(req.file.value.filename.value)
    ensures r.Success? ==>
      var name := req.file.value.filename.value;
      var loc := LocationOf(req.form);
      && r.value.uploadPath == Join(UploadFolder, StoredName(loc, timestamp, name))
      && r.value.resultPath == Join(ResultsFolder, ResultName(loc, timestamp))
      && r.value.results == AnalyzeParkingImage(r.value.uploadPath, clock)
  {
    if req.file.None? then Failure(BadRequest, "No file provided")
    else if req.file.value.filename == Some("") then Failure(BadRequest, "No file selected")
    else if req.file.value.filename.Some? && AllowedFile(req.file.value.filename.value) then
      var loc := LocationOf(req.form);
      var uploadPath := Join(UploadFolder, StoredName(loc, timestamp, req.file.value.filename.value));
      Success(Accepted(uploadPath, Join(ResultsFolder, ResultName(loc, timestamp)), AnalyzeParkingImage(uploadPath, clock)))
    else Failure(BadRequest, "Invalid file type")
  }

  /** Whatever the upload, the reply is a success or a 400, never anything else. */
  lemma AnalyzeRepliesSuccessOr400(req: Upload, timestamp: int, clock: string)
    ensures var r := AnalyzeParking(req, timestamp, clock);
      r.Failure? ==> r.status == BadRequest && r.error in {"No file provided", "No file selected", "Invalid file type"}
  {
  }

  /** An empty file name is reported as "No file selected", not as a bad extension, although "" has no allowed extension. */
  lemma EmptyNameBeforeExtension(form: map<string, string>, timestamp: int, clock: string)
    ensures !AllowedFile("")
    ensures AnalyzeParking(Upload(Some(FilePart(Some(""))), form), timestamp, clock).error == "No file selected"
  {
    NoDotRejected("");
  }

  /** Putting text in front of a name that holds a '.' does not change its verdict: the last '.' and what follows it stay. */
  lemma AllowedFileAfterPrefix(prefix: string, f: string, i: int)
    requires IsLastDot(f, i)
    ensures AllowedFile(prefix + f) == AllowedFile(f)
  {
    var g := prefix + f;
    forall m | |prefix| + i <= m < |g| ensures g[m] == f[m - |prefix|] {
    }
    assert IsLastDot(g, |prefix| + i);
    assert g[|prefix| + i + 1..] == f[i + 1..];
    AllowedAtLastDot(f, i);
    AllowedAtLastDot(g, |prefix| + i);
  }

  /** The stored name keeps the upload's extension, so it passes the whitelist exactly when the upload's name does. */
  lemma StoredNameKeepsExtension(locationId: string, timestamp: int, filename: string)
    requires exists j :: 0 <= j < |filename| && filename[j] == '.'
    ensures AllowedFile(StoredName(locationId, timestamp, filename)) == AllowedFile(filename)
  {
    var i := LastIndexOf(filename, '.').value;
    AllowedFileAfterPrefix(locationId + "_" + IntToString(timestamp) + "_", filename, i);
  }

  /**
   * With a location id that does not start with a separator, the upload path
   * is `uploads`, a backslash, then the stored name; that name embeds the raw
   * location id and file name, so it may itself hold separators.
   */
  lemma UploadStaysInFolder(locationId: string, timestamp: int, filename: string)
    requires !(|locationId| > 0 && IsSep(locationId[0]))
    ensures Join(UploadFolder, StoredName(locationId, timestamp, filename))
      == UploadFolder + [Sep] + StoredName(locationId, timestamp, filename)
  {
    var name := StoredName(locationId, timestamp, filename);
    assert name[0] == (if |locationId| > 0 then locationId[0] else '_');
  }

  /** The stored name is a plain file name when neither the location id nor the upload's name holds a separator. */
  lemma StoredNameNoSep(locationId: string, timestamp: int, filename: string)
    requires NoSep(locationId) && NoSep(filename)
    ensures NoSep(StoredName(locationId, timestamp, filename))
  {
    var digits := if timestamp < 0 then NatToString(-timestamp) else NatToString(timestamp);
    forall i | 0 <= i < |digits| ensures !IsSep(digits[i]) {
      assert IsDigit(digits[i]);
    }
    assert NoSep(IntToString(timestamp)) by {
      if timestamp < 0 { NoSepAppend("-", digits); }
    }
    NoSepAppend(locationId, "_");
    NoSepAppend(locationId + "_", IntToString(timestamp));
    NoSepAppend(locationId + "_" + IntToString(timestamp), "_");
    NoSepAppend(locationId + "_" + IntToString(timestamp) + "_", filename);
  }

  /**
   * Only when neither the location id nor the upload's name holds a separator
   * does the upload land directly in uploads/ under its stored name.
   */
  lemma UploadDirectlyInFolder(locationId: string, timestamp: int, filename: string)
    requires NoSep(locationId) && NoSep(filename)
    ensures Dirname(Join(UploadFolder, StoredName(locationId, timestamp, filename))) == UploadFolder
    ensures Basename(Join(UploadFolder, StoredName(locationId, timestamp, filename))) == StoredName(locationId, timestamp, filename)
  {
    var name := StoredName(locationId, timestamp, filename);
    StoredNameNoSep(locationId, timestamp, filename);
    UploadStaysInFolder(locationId, timestamp, filename);
    BasenameOfChild(UploadFolder, name);
    var p := UploadFolder + [Sep] + name;
    assert TailStart(p) == |UploadFolder| + 1;
    assert p[..TailStart(p)] == UploadFolder + [Sep];
    assert StripTrailingSeps(UploadFolder + [Sep]) == UploadFolder by {
      assert (UploadFolder + [Sep])[..|UploadFolder|] == UploadFolder;
    }
  }

  /** A location id that starts with a separator makes `os.path.join` drop uploads/ altogether. */
  lemma RootedLocationLeavesFolder(locationId: string, timestamp: int, filename: string)
    requires |locationId| > 0 && IsSep(locationId[0])
    ensures Join(UploadFolder, StoredName(locationId, timestamp, filename)) == StoredName(locationId, timestamp, filename)
  {
    assert StoredName(locationId, timestamp, filename)[0] == locationId[0];
  }

  // ---------------------------------------------------------------------
  // GET /api/statistics and GET /api/parking_status
  // ---------------------------------------------------------------------

  /** `request.args.get(key)`. */
  function Arg(args: map<string, string>, key: string): Option<string> {
    if key in args then Some(args[key]) else None
  }

  /** Python truthiness of an optional string: present and non-empty. */
  predicate Truthy(o: Option<string>) {
    o.Some? && o.value != ""
  }

  /** `o or fallback` on an optional string. */
  function OrElse(o: Option<string>, fallback: string): (r: string)
    ensures Truthy(o) ==> r == o.value
    ensures !Truthy(o) ==> r == fallback
  {
    if Truthy(o) then o.value else fallback
  }

  datatype Period = Period(start: string, end: string)

  datatype Statistics = Statistics(
    locationId: string, period: Period, averageOccupancy: real,
    peakHours: seq<string>, lowestOccupancyHours: seq<string>, totalRecords: int)

  datatype ParkingStatus = ParkingStatus(
    locationId: string, totalSpots: int, filledSpots: int, emptySpots: int,
    occupancyRate: real, lastUpdated: string)

  const LocationRequired: string := "location_id parameter is required"

  /** `get_statistics`: a missing or empty `location_id` is refused; absent or empty dates fall back to 'all time' and 'current date'. */
  function GetStatistics(args: map<string, string>): (r: Reply<Statistics>)
    ensures r.Failure? <==> !Truthy(Arg(args, "location_id"))
    ensures r.Failure? ==> r == Failure(BadRequest, LocationRequired)
    ensures r.Success? ==> r.value.locationId == args["location_id"] && r.value.locationId != ""
    ensures r.Success? && !Truthy(Arg(args, "start_date")) ==> r.value.period.start == "all time"
    ensures r.Success? && Truthy(Arg(args, "start_date")) ==> r.value.period.start == args["start_date"]
    ensures r.Success? && !Truthy(Arg(args, "end_date")) ==> r.value.period.end == "current date"
    ensures r.Success? && Truthy(Arg(args, "end_date")) ==> r.value.period.end == args["end_date"]
  {
    var locationId := Arg(args, "location_id");
    if !Truthy(locationId) then Failure(BadRequest, LocationRequired)
    else
      Success(Statistics(
        locationId.value,
        Period(OrElse(Arg(args, "start_date"), "all time"), OrElse(Arg(args, "end_date"), "current date")),
        65.3, ["08:00-09:00", "17:00-18:00"], ["03:00-04:00", "22:00-23:00"], 287))
  }

  /** `get_current_status`, with `clock` the formatted current time: the same refusal, then a fixed status. */
  function GetCurrentStatus(args: map<string, string>, clock: string): (r: Reply<ParkingStatus>)
    ensures r.Failure? <==> !Truthy(Arg(args, "location_id"))
    ensures r.Failure? ==> r == Failure(BadRequest, LocationRequired)
    ensures r.Success? ==> r.value.locationId == args["location_id"] && r.value.lastUpdated == clock
    ensures r.Success? ==>
      && r.value.filledSpots + r.value.emptySpots == r.value.totalSpots
      && r.value.totalSpots > 0
      && r.value.occupancyRate == r.value.filledSpots as real / r.value.totalSpots as real * 100.0
  {
    var locationId := Arg(args, "location_id");
    if !Truthy(locationId) then Failure(BadRequest, LocationRequired)
    else Success(ParkingStatus(locationId.value, 10, 6, 4, 60.0, clock))
  }

  /** The two query endpoints accept and refuse exactly the same queries, with the same error. */
  lemma QueryEndpointsAgree(args: map<string, string>, clock: string)
    ensures GetStatistics(args).Failure? <==> GetCurrentStatus(args, clock).Failure?
    ensures GetStatistics(args).Failure? ==> GetStatistics(args).error == GetCurrentStatus(args, clock).error
  {
  }
}
