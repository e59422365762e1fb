/**
 * The request logic of the clipping service (backend/main.py): the `HH:MM:SS` time format
 * and its conversion to seconds, the start-before-end check of the `ClipRequest` validator
 * and of `POST /clip`, the response `/clip` sends back, and the decisions of
 * `GET /status/{job_id}` and `GET /download/{job_id}`, which depend only on the id and on
 * which clip files exist in the output directory.
 */
module Backend {
  import opened Results
  import opened Text

  const OutputDir := "outputs"
  const EndBeforeStart := "End time must be after start time"
  const ValidatorMessage := "end must be after start"
  const InvalidJobId := "Invalid job_id format"
  const ClipNotFound := "Clip not found"

  /** A request the service turns down, as FastAPI sends it back. */
  datatype HttpError =
    | Unprocessable(params: seq<string>)              // 422 from query validation, naming the failing parameters
    | HttpException(statusCode: int, detail: string)  // `raise HTTPException(status_code, detail)`

  /** The body of an accepted `POST /clip`. */
  datatype ClipResponse = ClipResponse(status: string, jobId: string, statusUrl: string, downloadUrl: string)

  /** What `GET /status/{job_id}` reports. */
  datatype JobStatus = Done | Processing

  /** A `FileResponse`: the file served, its media type and the name offered for saving it. */
  datatype FileReply = FileReply(path: string, mediaType: string, filename: string)

  // ---------------------------------------------------------------- the time format

  /** One element of a regular expression made of digit classes and literal characters. */
  datatype Atom = Digit | Lit(c: char)   // `\d` (here: an ASCII digit), or the character itself

  predicate AtomMatches(a: Atom, c: char) {
    match a
    case Digit => IsDigit(c)
    case Lit(x) => c == x
  }

  /** `w` is matched, character by character, by the atoms of `p`. */
  predicate MatchesExactly(p: seq<Atom>, w: string) {
    |p| == |w| && forall i :: 0 <= i < |p| ==> AtomMatches(p[i], w[i])
  }

  /**
   * `re.match("^" + p + "$", t)` for a pattern of fixed width: `$` matches at the end of the
   * text or just before a newline that ends it.
   */
  predicate AnchoredMatch(p: seq<Atom>, t: string) {
    MatchesExactly(p, t) || (|t| == |p| + 1 && t[|p|] == '\n' && MatchesExactly(p, t[..|p|]))
  }

  /** `\d{2}:\d{2}:\d{2}` */
  const HmsPattern := [Digit, Digit, Lit(':'), Digit, Digit, Lit(':'), Digit, Digit]

  /**
   * The constraint `^\d{2}:\d{2}:\d{2}$` on `start` and `end`, written out position by
   * position. Python's `re.match` lets `$` match just before a final newline, so one trailing
   * `\n` is accepted too.
   */
  predicate IsHms(t: string) {
    (|t| == 8 || (|t| == 9 && t[8] == '\n'))
    && IsDigit(t[0]) && IsDigit(t[1]) && t[2] == ':'
    && IsDigit(t[3]) && IsDigit(t[4]) && t[5] == ':'
    && IsDigit(t[6]) && IsDigit(t[7])
  }

  /** The position-by-position test accepts exactly what the regular expression matches. */
  lemma IsHmsMatchesPattern(t: string)
    ensures IsHms(t) <==> AnchoredMatch(HmsPattern, t)
  {
    if |t| >= 8 {
      assert forall i :: 0 <= i < 8 ==> t[..8][i] == t[i];
    }
  }

  function TwoDigits(a: char, b: char): (n: nat)
    requires IsDigit(a) && IsDigit(b)
    ensures n < 100
  {
    10 * DigitValue(a) + DigitValue(b)
  }

  /** `int(field)` on a field of a validated time: Python's `int` ignores surrounding whitespace. */
  function IntValue(field: string): nat
    requires AllDigits(Strip(field))
  {
    DecimalValue(Strip(field))
  }

  /**
   * `to_seconds(t)`: `h, m, s = map(int, t.split(":"))`, then `h * 3600 + m * 60 + s`.
   * Every field is two digits read as a number; minutes and seconds of 60 or more are not
   * rejected and simply add up.
   */
  function ToSeconds(t: string): (secs: nat)
    requires IsHms(t)
    ensures secs == 3600 * TwoDigits(t[0], t[1]) + 60 * TwoDigits(t[3], t[4]) + TwoDigits(t[6], t[7])
    ensures secs <= 99 * 3600 + 99 * 60 + 99
  {
    var fields := Split(t, ':');
    HoursValue(t);
    MinutesValue(t);
    SecondsValue(t);
    IntValue(fields[0]) * 3600 + IntValue(fields[1]) * 60 + IntValue(fields[2])
  }

  /** A validated time splits into three fields; `int` reads the first as its two digits. */
  lemma HoursValue(t: string)
    requires IsHms(t)
    ensures |Split(t, ':')| == 3
    ensures AllDigits(Strip(Split(t, ':')[0])) && IntValue(Split(t, ':')[0]) == TwoDigits(t[0], t[1])
  {
    SplitHms(t);
    StripField(t[..2], t[0], t[1]);
    TwoDigitValue(t[0], t[1]);
  }

  lemma MinutesValue(t: string)
    requires IsHms(t)
    ensures |Split(t, ':')| == 3
    ensures AllDigits(Strip(Split(t, ':')[1])) && IntValue(Split(t, ':')[1]) == TwoDigits(t[3], t[4])
  {
    SplitHms(t);
    StripField(t[3..5], t[3], t[4]);
    TwoDigitValue(t[3], t[4]);
  }

  lemma SecondsValue(t: string)
    requires IsHms(t)
    ensures |Split(t, ':')| == 3
    ensures AllDigits(Strip(Split(t, ':')[2])) && IntValue(Split(t, ':')[2]) == TwoDigits(t[6], t[7])
  {
    SplitHms(t);
    StripField(t[6..], t[6], t[7]);
    TwoDigitValue(t[6], t[7]);
  }

  /** A two-digit field, possibly followed by the final newline, reads as its two digits. */
  lemma StripField(field: string, a: char, b: char)
    requires IsDigit(a) && IsDigit(b)
    requires field == [a, b] || field == [a, b, '\n']
    ensures Strip(field) == [a, b]
  {
    var w := field[2..];
    assert AllSpace(w);
    assert field == [a, b] + w;
    StripDigits([a, b], w);
  }

  /** `t.split(":")` of a validated time cuts it at its two colons. */
  lemma SplitHms(t: string)
    requires IsHms(t)
    ensures Split(t, ':') == [t[..2], t[3..5], t[6..]]
  {
    var hh, mm, rest := t[..2], t[3..5], t[6..];
    assert t[..3] == hh + [':'];
    assert t[3..6] == mm + [':'];
    assert t == t[..3] + t[3..6] + rest;
    Assoc(hh + [':'], mm, [':']);
    assert ':' !in rest by {
      forall k | 0 <= k < |rest| ensures rest[k] != ':' { assert rest[k] == t[6 + k]; }
    }
    SplitThree(hh, mm, rest, ':');
  }

  /** A run of digits followed by blanks strips to the digits. */
  lemma StripDigits(d: string, w: string)
    requires d != [] && AllDigits(d) && AllSpace(w)
    ensures Strip(d + w) == d
  {
    assert TrimStart(d) == d && TrimEnd(d) == d;
    TrimStartAppend(d, w);
    TrimEndSpaceSuffix(d, w);
  }

  lemma TwoDigitValue(a: char, b: char)
    requires IsDigit(a) && IsDigit(b)
    ensures AllDigits([a, b]) && DecimalValue([a, b]) == TwoDigits(a, b)
  {
    var ab, a1 := [a, b], [a];
    assert ab[..1] == a1 && ab[1] == b;
    assert a1[..0] == [] && a1[0] == a;
    assert DecimalValue(a1) == DigitValue(a);
  }

  /** Two digits spelling `n < 100`, with a leading zero when needed. */
  function Pad2(n: nat): (s: string)
    requires n < 100
    ensures |s| == 2 && IsDigit(s[0]) && IsDigit(s[1]) && TwoDigits(s[0], s[1]) == n
  {
    ['0' + (n / 10) as char, '0' + (n % 10) as char]
  }

  /** The `HH:MM:SS` spelling of three two-digit fields. */
  function FormatHms(h: nat, m: nat, s: nat): string
    requires h < 100 && m < 100 && s < 100
  {
    Pad2(h) + ":" + Pad2(m) + ":" + Pad2(s)
  }

  /** Any three two-digit fields make a valid time whose value is `3600 h + 60 m + s`. */
  lemma FormatThenToSeconds(h: nat, m: nat, s: nat)
    requires h < 100 && m < 100 && s < 100
    ensures IsHms(FormatHms(h, m, s))
    ensures ToSeconds(FormatHms(h, m, s)) == 3600 * h + 60 * m + s
  {
    var t := FormatHms(h, m, s);
    assert t[0..2] == Pad2(h) && t[3..5] == Pad2(m) && t[6..8] == Pad2(s);
    assert t[0] == Pad2(h)[0] && t[1] == Pad2(h)[1];
    assert t[3] == Pad2(m)[0] && t[4] == Pad2(m)[1];
    assert t[6] == Pad2(s)[0] && t[7] == Pad2(s)[1];
  }

  /** A valid time is the spelling of its own fields, up to the optional final newline. */
  lemma ToFieldsThenFormat(t: string)
    requires IsHms(t)
    ensures FormatHms(TwoDigits(t[0], t[1]), TwoDigits(t[3], t[4]), TwoDigits(t[6], t[7])) == t[..8]
  {
    Pad2OfDigits(t[0], t[1]);
    Pad2OfDigits(t[3], t[4]);
    Pad2OfDigits(t[6], t[7]);
    assert t[..8] == [t[0], t[1]] + ":" + [t[3], t[4]] + ":" + [t[6], t[7]];
  }

  /** `Pad2` spells a two-digit value with the digits it came from. */
  lemma Pad2OfDigits(a: char, b: char)
    requires IsDigit(a) && IsDigit(b)
    ensures Pad2(TwoDigits(a, b)) == [a, b]
  {
    var n := TwoDigits(a, b);
    assert n / 10 == DigitValue(a) && n % 10 == DigitValue(b);
  }

  /** Fields of 60 or more add up: `"00:00:99"` is 99 seconds and `"00:00:60"` equals `"00:01:00"`. */
  lemma OverflowingFieldsAddUp()
    ensures IsHms("00:00:99") && ToSeconds("00:00:99") == 99
    ensures IsHms("00:00:60") && IsHms("00:01:00") && ToSeconds("00:00:60") == ToSeconds("00:01:00") == 60
  {
    var a, b, c := "00:00:99", "00:00:60", "00:01:00";
    assert IsHms(a) && IsHms(b) && IsHms(c);
    assert TwoDigits(a[0], a[1]) == TwoDigits(a[3], a[4]) == 0 && TwoDigits(a[6], a[7]) == 99;
    assert TwoDigits(b[0], b[1]) == TwoDigits(b[3], b[4]) == 0 && TwoDigits(b[6], b[7]) == 60;
    assert TwoDigits(c[0], c[1]) == TwoDigits(c[6], c[7]) == 0 && TwoDigits(c[3], c[4]) == 1;
  }

  // ---------------------------------------------------------------- start before end

  /**
   * `ClipRequest.check_start_end(v, values)`: the `end` validator. When `start` passed its own
   * validation it is in `values`, and `end` must then be strictly later; otherwise `end` is kept.
   */
  function CheckStartEnd(values: map<string, string>, v: string): (r: Result<string, string>)
    requires IsHms(v)
    requires "start" in values ==> IsHms(values["start"])
    ensures r.Ok? ==> r.value == v
    ensures r.Err? <==> "start" in values && ToSeconds(v) <= ToSeconds(values["start"])
    ensures r.Err? ==> r.error == ValidatorMessage
  {
    if "start" in values then
      var startSec := ToSeconds(values["start"]);
      var endSec := ToSeconds(v);
      if endSec <= startSec then Err(ValidatorMessage) else Ok(v)
    else
      Ok(v)
  }

  /** The query parameters of `/clip` that fail their declared types, in declaration order. */
  function InvalidParams(urlIsHttp: bool, start: string, end: string): (r: seq<string>)
    ensures r == [] <==> urlIsHttp && IsHms(start) && IsHms(end)
    ensures "url" in r <==> !urlIsHttp
    ensures "start" in r <==> !IsHms(start)
    ensures "end" in r <==> !IsHms(end)
    ensures forall x :: x in r ==> x == "url" || x == "start" || x == "end"
    ensures forall i, j :: 0 <= i < j < |r| ==> ParamRank(r[i]) < ParamRank(r[j])
  {
    (if urlIsHttp then [] else ["url"]) + (if IsHms(start) then [] else ["start"]) + (if IsHms(end) then [] else ["end"])
  }

  /** The position of a query parameter in the signature of `/clip`. */
  function ParamRank(name: string): nat {
    if name == "url" then 0 else if name == "start" then 1 else 2
  }

  /** The path the background job writes its clip to, and `/status` and `/download` look for. */
  function ClipPath(jobId: string): (p: string)
    ensures StartsWith(p, OutputDir + "/") && EndsWith(p, "_clip.mp4")
    ensures |p| == |OutputDir + "/"| + |jobId| + |"_clip.mp4"|
    ensures p[|OutputDir + "/"|..|p| - |"_clip.mp4"|] == jobId
  {
    OutputDir + "/" + jobId + "_clip.mp4"
  }

  /**
   * `POST /clip?url=..&start=..&end=..`. `urlIsHttp` is FastAPI's verdict on `url` as an
   * `AnyHttpUrl`; `newJobId` is the `str(uuid.uuid4())` drawn for an accepted request.
   */
  function Clip(urlIsHttp: bool, start: string, end: string, newJobId: string): (r: Result<ClipResponse, HttpError>)
    ensures r.Err? && r.error.Unprocessable? <==> !(urlIsHttp && IsHms(start) && IsHms(end))
    ensures r.Err? && r.error.Unprocessable? ==> r.error.params == InvalidParams(urlIsHttp, start, end)
    ensures r == Err(HttpException(400, EndBeforeStart)) <==>
      urlIsHttp && IsHms(start) && IsHms(end) && ToSeconds(end) <= ToSeconds(start)
    ensures r.Ok? <==> urlIsHttp && IsHms(start) && IsHms(end) && ToSeconds(start) < ToSeconds(end)
    ensures r.Ok? ==>
      && r.value.status == "processing" && r.value.jobId == newJobId
      && r.value.statusUrl == "/status/" + newJobId && r.value.downloadUrl == "/download/" + newJobId
  {
    var invalid := InvalidParams(urlIsHttp, start, end);
    if invalid != [] then
      Err(Unprocessable(invalid))
    else
      var startSec := ToSeconds(start);
      var endSec := ToSeconds(end);
      if endSec <= startSec then
        Err(HttpException(400, EndBeforeStart))
      else
        Ok(ClipResponse("processing", newJobId, "/status/" + newJobId, "/download/" + newJobId))
  }

  /** The validator and the handler draw the line at the same place: both compare total seconds. */
  lemma ValidatorAgreesWithHandler(start: string, end: string, newJobId: string)
    requires IsHms(start) && IsHms(end)
    ensures CheckStartEnd(map["start" := start], end).Ok? <==> Clip(true, start, end, newJobId).Ok?
  {
  }

  /**
   * The comparison is on seconds, not on the text: `"00:00:99"` sorts before `"00:01:00"`
   * as a string, yet a clip from the first to the second is turned down.
   */
  lemma TextOrderIsNotTimeOrder(newJobId: string)
    ensures "00:00:99"[..4] == "00:01:00"[..4] && "00:00:99"[4] < "00:01:00"[4]
    ensures Clip(true, "00:00:99", "00:01:00", newJobId) == Err(HttpException(400, EndBeforeStart))
  {
    var start, end := "00:00:99", "00:01:00";
    assert start[..4] == end[..4] && start[4] == '0' && end[4] == '1';
    OverflowingFieldsAddUp();
    assert ToSeconds(end) <= ToSeconds(start);
  }

  // ---------------------------------------------------------------- the background job's output

  /**
   * How far the background job of one request has got. ffmpeg creates `clip_path` when it
   * opens its output, before it has encoded anything, and leaves it there if it fails later.
   */
  datatype JobStage =
    | Downloading                    // yt-dlp is running
    | DownloadFailed                 // yt-dlp failed or could not be started: ffmpeg never runs
    | Cutting(outputOpened: bool)    // ffmpeg is running, and has or has not created `clip_path` yet
    | CutFailed(outputOpened: bool)  // ffmpeg failed, after or before creating `clip_path`
    | Completed                      // ffmpeg succeeded: `clip_path` holds the clip

  /** Whether a file exists at `clip_path` at this stage. */
  predicate ClipWritten(stage: JobStage) {
    match stage
    case Cutting(created) => created
    case CutFailed(created) => created
    case Completed => true
    case _ => false
  }

  /** The stages `process_clip` can go on to; a failure or completion is final. */
  predicate NextStage(a: JobStage, b: JobStage) {
    match a
    case Downloading => b == DownloadFailed || b == Cutting(false)
    case Cutting(created) => (!created && b == Cutting(true)) || b == CutFailed(created) || (created && b == Completed)
    case _ => false
  }

  /**
   * The clip files while the job of `jobId` is at `stage`: its clip path exists exactly once
   * ffmpeg has opened its output, whether or not the cut goes on to succeed.
   */
  function JobFiles(outputs: set<string>, jobId: string, stage: JobStage): (after: set<string>)
    ensures after >= outputs
    ensures ClipPath(jobId) in after <==> ClipWritten(stage) || ClipPath(jobId) in outputs
    ensures stage == Completed ==> ClipPath(jobId) in after
    ensures after - {ClipPath(jobId)} == outputs - {ClipPath(jobId)}
  {
    if ClipWritten(stage) then outputs + {ClipPath(jobId)} else outputs
  }

  /** Once a clip file exists it stays: the job never removes it. */
  lemma ClipFileStays(a: JobStage, b: JobStage, outputs: set<string>, jobId: string)
    requires NextStage(a, b) && ClipPath(jobId) in JobFiles(outputs, jobId, a)
    ensures ClipPath(jobId) in JobFiles(outputs, jobId, b)
  {
  }

  /** Different jobs never share a clip path. */
  lemma ClipPathInjective(a: string, b: string)
    requires ClipPath(a) == ClipPath(b)
    ensures a == b
  {
    var pre, suf := OutputDir + "/", "_clip.mp4";
    assert ClipPath(a) == pre + a + suf && ClipPath(b) == pre + b + suf;
    assert |a| == |b|;
    forall k | 0 <= k < |a| ensures a[k] == b[k] {
      assert ClipPath(a)[|pre| + k] == a[k];
      assert ClipPath(b)[|pre| + k] == b[k];
    }
  }

  // ---------------------------------------------------------------- status and download

  /** `GET /status/{job_id}`: `isUuid` is whether `uuid.UUID(job_id)` parses; `outputs` the existing files. */
  function Status(jobId: string, isUuid: string -> bool, outputs: set<string>): (r: Result<JobStatus, HttpError>)
    ensures r.Err? <==> !isUuid(jobId)
    ensures r.Err? ==> r.error == HttpException(400, InvalidJobId)
    ensures r == Ok(Done) <==> isUuid(jobId) && ClipPath(jobId) in outputs
    ensures r.Ok? ==> StatusText(r.value) == (if ClipPath(jobId) in outputs then "done" else "processing")
  {
    if !isUuid(jobId) then Err(HttpException(400, InvalidJobId))
    else if ClipPath(jobId) in outputs then Ok(Done)
    else Ok(Processing)
  }

  /** The text of the `status` field. */
  function StatusText(s: JobStatus): string {
    match s
    case Done => "done"
    case Processing => "processing"
  }

  /** `GET /download/{job_id}`: the id is checked first, then the file. */
  function Download(jobId: string, isUuid: string -> bool, outputs: set<string>): (r: Result<FileReply, HttpError>)
    ensures !isUuid(jobId) ==> r == Err(HttpException(400, InvalidJobId))
    ensures isUuid(jobId) && ClipPath(jobId) !in outputs ==> r == Err(HttpException(404, ClipNotFound))
    ensures r.Ok? <==> isUuid(jobId) && ClipPath(jobId) in outputs
    ensures r.Ok? ==> r.value == FileReply(ClipPath(jobId), "video/mp4", "clip.mp4")
  {
    if !isUuid(jobId) then Err(HttpException(400, InvalidJobId))
    else
      var filePath := ClipPath(jobId);
      if filePath !in outputs then Err(HttpException(404, ClipNotFound))
      else Ok(FileReply(filePath, "video/mp4", "clip.mp4"))
  }

  /** `/download` serves a clip exactly when `/status` says it is done, and turns the same ids down. */
  lemma DownloadAgreesWithStatus(jobId: string, isUuid: string -> bool, outputs: set<string>)
    ensures Download(jobId, isUuid, outputs).Ok? <==> Status(jobId, isUuid, outputs) == Ok(Done)
    ensures Status(jobId, isUuid, outputs) == Ok(Processing) <==> Download(jobId, isUuid, outputs) == Err(HttpException(404, ClipNotFound))
    ensures Status(jobId, isUuid, outputs).Err? <==> Download(jobId, isUuid, outputs) == Err(HttpException(400, InvalidJobId))
  {
  }

  /**
   * The life of one accepted job, seen through `/status` and `/download`: "processing" until
   * ffmpeg has created the clip file, "done" and downloadable from then on -- while the cut is
   * still running, and also after a cut that failed once the file existed.
   */
  lemma JobLifecycle(urlIsHttp: bool, start: string, end: string, jobId: string, isUuid: string -> bool,
                     outputs: set<string>, stage: JobStage)
    requires Clip(urlIsHttp, start, end, jobId).Ok?
    requires isUuid(jobId) && ClipPath(jobId) !in outputs
    ensures var id := Clip(urlIsHttp, start, end, jobId).value.jobId;
      && Status(id, isUuid, outputs) == Ok(Processing)
      && Status(id, isUuid, JobFiles(outputs, id, stage)) == Ok(if ClipWritten(stage) then Done else Processing)
      && (Download(id, isUuid, JobFiles(outputs, id, stage)).Ok? <==> ClipWritten(stage))
  {
  }

  /**
   * `/status` cannot tell a finished clip from one being cut or one whose cut failed, and
   * never reports a failure: a failed download or a cut that failed before creating the file
   * reads "processing" for ever.
   */
  lemma StatusIsNotCompletion(jobId: string, isUuid: string -> bool, outputs: set<string>)
    requires isUuid(jobId) && ClipPath(jobId) !in outputs
    ensures Status(jobId, isUuid, JobFiles(outputs, jobId, Cutting(true))) == Ok(Done)
    ensures Status(jobId, isUuid, JobFiles(outputs, jobId, CutFailed(true))) == Ok(Done)
    ensures Download(jobId, isUuid, JobFiles(outputs, jobId, CutFailed(true))).Ok?
    ensures Status(jobId, isUuid, JobFiles(outputs, jobId, DownloadFailed)) == Ok(Processing)
    ensures Status(jobId, isUuid, JobFiles(outputs, jobId, CutFailed(false))) == Ok(Processing)
    ensures forall b :: !NextStage(DownloadFailed, b) && !NextStage(CutFailed(false), b)
  {
  }
}
