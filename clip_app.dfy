/**
 * The clip form of the web client (app/src/App.jsx): its state cells, the request that
 * `handleSubmit` sends, and how the outcome of that request settles `error`,
 * `downloadUrl` and `loading`.
 */
module ClipApp {
  import opened Results
  import opened Text
  import Backend

  const BackendBase := "https://ai-clipper-backend.onrender.com"
  const GenericError := "Error generating clip"

  /** What `await response.json()` yields. */
  datatype Body =
    | Json(jobId: Option<string>, detail: Option<string>)  // `data.job_id`, `data.detail`; None is `undefined`
    | NotJson(message: string)                             // the body does not parse: the SyntaxError's message

  /** What `await fetch(...)` yields. */
  datatype FetchResult =
    | NetworkError(message: string)    // the request itself failed: the TypeError's message
    | Response(ok: bool, body: Body)

  /** The query string of the request: only the URL goes through `encodeURIComponent`. */
  function ClipQuery(url: string, start: string, end: string, encode: string -> string): string {
    "url=" + encode(url) + "&start=" + start + "&end=" + end
  }

  /** The address `handleSubmit` POSTs to: the backend host's `/clip` endpoint, and the query after `?`. */
  function ClipRequestUrl(url: string, start: string, end: string, encode: string -> string): (r: string)
    ensures StartsWith(r, BackendBase + "/clip?")
    ensures r[|BackendBase + "/clip?"|..] == ClipQuery(url, start, end, encode)
  {
    BackendBase + "/clip?" + ClipQuery(url, start, end, encode)
  }

  /** A request `fetch` is given: the HTTP method and the address. */
  datatype Request = Request(verb: string, address: string)

  /**
   * What of an address `fetch` sends to the server: everything before the first `#`, the rest
   * being a fragment that stays in the client.
   */
  function SentPart(address: string): (s: string)
    ensures StartsWith(address, s) && '#' !in s
    ensures '#' !in address ==> s == address
    ensures |s| < |address| ==> address[|s|] == '#'
  {
    if '#' !in address then IndexOfAbsent(address, '#'); address
    else address[..IndexOf(address, '#')]
  }

  /** A JavaScript value in a template literal: `undefined` prints as the word. */
  function TemplateText(v: Option<string>): string {
    match v
    case Some(s) => s
    case None => "undefined"
  }

  /** JavaScript truthiness of a string-or-undefined: the empty string is falsy. */
  predicate Truthy(v: Option<string>) {
    v.Some? && v.value != ""
  }

  /** The link shown for a job. */
  function DownloadLink(jobId: Option<string>): string {
    BackendBase + "/download/" + TemplateText(jobId)
  }

  /** The `error` and `downloadUrl` cells once a submission has settled. */
  datatype Settled = Settled(error: string, downloadUrl: string)

  /**
   * How a submission settles: a link on an ok response, and otherwise the message of whatever
   * was thrown -- the network error, the JSON parse error (the body is parsed before `ok` is
   * looked at), or `data.detail || "Error generating clip"` for a response that is not ok.
   */
  function Settle(result: FetchResult): (s: Settled)
    ensures !(s.error != "" && s.downloadUrl != "")
    ensures s.downloadUrl != "" <==> result.Response? && result.ok && result.body.Json?
    ensures result.Response? && result.ok && result.body.Json? ==> s == Settled("", DownloadLink(result.body.jobId))
    ensures result.Response? && !result.ok && result.body.Json? ==>
      && s.downloadUrl == "" && s.error != ""
      && s.error == (if Truthy(result.body.detail) then result.body.detail.value else GenericError)
    ensures result.Response? && result.body.NotJson? ==> s == Settled(result.body.message, "")
    ensures result.NetworkError? ==> s == Settled(result.message, "")
  {
    match result
    case NetworkError(message) => Settled(message, "")
    case Response(ok, body) =>
      match body
      case NotJson(message) => Settled(message, "")
      case Json(jobId, detail) =>
        if !ok then Settled(if Truthy(detail) then detail.value else GenericError, "")
        else Settled("", DownloadLink(jobId))
  }

  /** The `App` component's state cells. */
  class ClipForm {
    var url: string
    var start: string
    var end: string
    var loading: bool
    var error: string
    var downloadUrl: string

    /** An error message and a download link are never shown together. */
    predicate Consistent()
      reads this
    {
      !(error != "" && downloadUrl != "")
    }

    /** The submit button is enabled: `disabled={loading}`. */
    predicate CanSubmit()
      reads this
    {
      !loading
    }

    /** The state between sending the request and its outcome. */
    predicate InFlight()
      reads this
    {
      loading && error == "" && downloadUrl == ""
    }

    /** `useState("")` for the texts and the messages, `useState(false)` for `loading`. */
    constructor ()
      ensures url == "" && start == "" && end == ""
      ensures !loading && error == "" && downloadUrl == ""
      ensures Consistent() && CanSubmit()
    {
      url, start, end := "", "", "";
      loading, error, downloadUrl := false, "", "";
    }

    /** The URL field's `onChange`. */
    method SetUrl(value: string)
      modifies this`url
      ensures url == value
    {
      url := value;
    }

    /** The start field's `onChange`. */
    method SetStart(value: string)
      modifies this`start
      ensures start == value
    {
      start := value;
    }

    /** The end field's `onChange`. */
    method SetEnd(value: string)
      modifies this`end
      ensures end == value
    {
      end := value;
    }

    /**
     * The part of `handleSubmit` before the `await`: clear both messages, set `loading`,
     * and send the request, which is returned.
     */
    method BeginSubmit(encode: string -> string) returns (request: Request)
      modifies this`error, this`downloadUrl, this`loading
      ensures InFlight() && !CanSubmit() && Consistent()
      ensures request == Request("POST", ClipRequestUrl(url, start, end, encode))
    {
      error := "";
      downloadUrl := "";
      loading := true;
      request := Request("POST", ClipRequestUrl(url, start, end, encode));
    }

    /** The part of `handleSubmit` after the `await`: the `try`/`catch` and the final `setLoading(false)`. */
    method FinishSubmit(result: FetchResult)
      requires InFlight()
      modifies this`error, this`downloadUrl, this`loading
      ensures Settled(error, downloadUrl) == Settle(result)
      ensures !loading && Consistent() && CanSubmit()
    {
      var thrown: Option<string> := None;
      match result {
        case NetworkError(message) =>
          thrown := Some(message);
        case Response(ok, body) =>
          match body {
            case NotJson(message) =>
              thrown := Some(message);
            case Json(jobId, detail) =>
              if !ok {
                thrown := Some(if Truthy(detail) then detail.value else GenericError);
              } else {
                downloadUrl := DownloadLink(jobId);
              }
          }
      }
      if thrown.Some? {
        error := thrown.value;
      }
      loading := false;
    }

    /** `handleSubmit` as a whole, for a request that ends with `result`. */
    method HandleSubmit(encode: string -> string, result: FetchResult) returns (request: Request)
      modifies this`error, this`downloadUrl, this`loading
      ensures request == Request("POST", ClipRequestUrl(url, start, end, encode))
      ensures Settled(error, downloadUrl) == Settle(result)
      ensures !loading && Consistent() && CanSubmit()
    {
      request := BeginSubmit(encode);
      FinishSubmit(result);
    }
  }

  /** The query is its three parameters joined by `&`. */
  lemma ClipQueryParts(url: string, start: string, end: string, encode: string -> string)
    ensures ClipQuery(url, start, end, encode) == ("url=" + encode(url)) + ['&'] + ("start=" + start) + ['&'] + ("end=" + end)
  {
  }

  /**
   * With `encodeURIComponent` escaping `&` (it does) and no `&` typed into the time fields,
   * the query carries exactly the three parameters `url`, `start` and `end`.
   */
  lemma QueryParameters(url: string, start: string, end: string, encode: string -> string)
    requires '&' !in encode(url) && '&' !in start && '&' !in end
    ensures Split(ClipQuery(url, start, end, encode), '&') == ["url=" + encode(url), "start=" + start, "end=" + end]
  {
    ClipQueryParts(url, start, end, encode);
    SplitThree("url=" + encode(url), "start=" + start, "end=" + end, '&');
  }

  /** `start` is not encoded: an `&` typed into it opens a further query parameter. */
  lemma UnencodedStartAddsParameter(url: string, start: string, end: string, encode: string -> string)
    requires '&' in start
    ensures |Split(ClipQuery(url, start, end, encode), '&')| > 3
  {
    var u, s, e := "url=" + encode(url), "start=" + start, "end=" + end;
    ClipQueryParts(url, start, end, encode);
    SplitAround(u + ['&'] + s, e, '&');
    SplitAround(u, s, '&');
    assert '&' in s by {
      var k :| 0 <= k < |start| && start[k] == '&';
      assert s[6 + k] == '&';
    }
    SplitOfSeparated(s, '&');
  }

  /**
   * `start` and `end` are not encoded either for `#`: one typed into them starts the fragment,
   * and the part of the query from there on, `end` among it when the `#` is in `start`, never
   * reaches the backend.
   */
  lemma HashCutsQuery(url: string, start: string, end: string, encode: string -> string)
    requires '#' !in encode(url) && ('#' in start || '#' in end)
    ensures var address := ClipRequestUrl(url, start, end, encode);
      |SentPart(address)| < |address|
    ensures '#' in start ==>
      |SentPart(ClipRequestUrl(url, start, end, encode))| < |BackendBase + "/clip?" + "url=" + encode(url) + "&start=" + start|
  {
    var address := ClipRequestUrl(url, start, end, encode);
    var a := BackendBase + "/clip?" + "url=" + encode(url) + "&start=" + start;
    if '#' in start {
      assert address == a + ("&end=" + end);
      SentPartCuts(a, "&end=" + end);
    } else {
      assert address + [] == address;
      SentPartCuts(address, []);
    }
  }

  /** A `#` in the first part of an address cuts what is sent inside that part. */
  lemma SentPartCuts(a: string, t: string)
    requires '#' in a
    ensures |SentPart(a + t)| < |a|
  {
    IndexOfBefore(a, t, '#');
  }

  /** The link for a known job id is the backend's host followed by `/download/` and the id. */
  lemma DownloadLinkOf(jobId: string)
    ensures Settle(Response(true, Json(Some(jobId), None))) == Settled("", BackendBase + ("/download/" + jobId))
  {
    assert DownloadLink(Some(jobId)) == BackendBase + ("/download/" + jobId);
  }

  /** The link the client shows for an accepted clip is the backend's `download_url` on the backend's host. */
  lemma LinkMatchesBackend(urlIsHttp: bool, start: string, end: string, jobId: string, reply: Backend.ClipResponse)
    requires Backend.Clip(urlIsHttp, start, end, jobId) == Ok(reply)
    ensures Settle(Response(true, Json(Some(reply.jobId), None))) == Settled("", BackendBase + reply.downloadUrl)
  {
    assert reply.jobId == jobId && reply.downloadUrl == "/download/" + jobId;
    DownloadLinkOf(jobId);
  }
}
