/**
 * GenerateVideoWorker.doWork: read the settings, submit a generation job,
 * poll its status every 2 s for at most 10 minutes, download the video,
 * stage it, copy it to the lock-screen file, record its path, and map every
 * exception to a WorkManager result. The remote side is given as inputs: the
 * submit reply, the replies to successive status requests, and the download
 * response.
 */
module GenerateWorker {
  import opened Wrappers
  import Prefs

  const PollIntervalMs: int := 2000
  const MaxWaitMs: int := 10 * 60 * 1000

  /** waited takes the values 0, 2000, ..., 600000 while polling: 301 requests at most. */
  const MaxPolls: int := MaxWaitMs / PollIntervalMs + 1

  /** The exception classes whose difference matters to the result. */
  datatype Exception =
    | SocketTimeoutException   // a network read timeout, and the worker's own polling timeout
    | IOException              // other I/O failures, and the worker's download checks
    | RuntimeException         // the worker's "generation failed" on an error status
    | IllegalStateException    // error(...) when the response has no body
    | OtherException           // anything else (HTTP errors of the API, JSON decoding, ...)

  /** The WorkManager result doWork returns. */
  datatype WorkResult = Success | Retry | Failure

  /** The two catch clauses: a SocketTimeoutException asks for a retry, every other exception fails. */
  function ResultFor(e: Exception): (res: WorkResult)
    ensures res != Success
    ensures res == Retry <==> e == SocketTimeoutException
  {
    if e == SocketTimeoutException then Retry else Failure
  }

  /** The body of POST generateVideo as the worker fills it. */
  datatype GenerateRequest = GenerateRequest(subject: string, place: string, aspect: string, durationSec: int)

  datatype SubmitReply = Accepted(jobId: string, downloadUrl: string) | SubmitFailed(e: Exception)

  datatype PollReply = StatusReply(status: string, detail: Option<string>) | PollFailed(e: Exception)

  /** A response body: read completely, or broken off after a prefix by an exception. */
  datatype Body = Complete(bytes: seq<bv8>) | Broken(prefix: seq<bv8>, e: Exception)

  datatype DownloadReply =
    | Response(code: int, contentType: Option<string>, body: Option<Body>)
    | DownloadFailed(e: Exception)

  // ------------------------------------------------------------ text tests

  function UpperAscii(c: char): char {
    if 'a' <= c <= 'z' then (c as int - 32) as char else c
  }

  /** String.equals(other, ignoreCase = true), with ASCII case folding. */
  predicate EqualsIgnoreCase(a: string, b: string) {
    |a| == |b| && forall i | 0 <= i < |a| :: UpperAscii(a[i]) == UpperAscii(b[i])
  }

  predicate IsReady(status: string) {
    EqualsIgnoreCase(status, "ready")
  }

  predicate IsError(status: string) {
    EqualsIgnoreCase(status, "error")
  }

  lemma ReadyAndErrorExclusive(status: string)
    ensures !(IsReady(status) && IsError(status))
  {
    if IsReady(status) {
      assert UpperAscii(status[0]) == UpperAscii("ready"[0]) == 'R';
    }
  }

  /** String.startsWith(prefix), case-sensitive. */
  predicate StartsWith(s: string, prefix: string) {
    |prefix| <= |s| && s[..|prefix|] == prefix
  }

  // -------------------------------------------------------------- polling

  /** A reply that ends polling: a thrown exception, "ready" or "error" in any letter case. */
  predicate Terminal(r: PollReply) {
    r.PollFailed? || IsReady(r.status) || IsError(r.status)
  }

  datatype PollEnd = Ready | Thrown(e: Exception)

  /** How a terminal reply ends polling. */
  function EndOf(r: PollReply): PollEnd
    requires Terminal(r)
  {
    if r.PollFailed? then Thrown(r.e)
    else if IsReady(r.status) then Ready
    else Thrown(RuntimeException)
  }

  /** How polling ends, and how many status requests it made in all. */
  datatype PollOutcome = PollOutcome(end: PollEnd, requests: nat)

  /**
   * Polling from the n-th status request on: the first terminal reply ends
   * it; after MaxPolls requests without one it ends in a timeout.
   */
  function PollFrom(replies: seq<PollReply>, n: nat): (r: PollOutcome)
    requires |replies| >= MaxPolls && n <= MaxPolls
    ensures r.requests <= MaxPolls
    ensures n < MaxPolls ==> n < r.requests
    ensures n == MaxPolls ==> r == PollOutcome(Thrown(SocketTimeoutException), MaxPolls)
    ensures forall j | n <= j < r.requests - 1 :: !Terminal(replies[j])
    ensures n < MaxPolls && Terminal(replies[r.requests - 1]) ==> r.end == EndOf(replies[r.requests - 1])
    ensures n < MaxPolls && !Terminal(replies[r.requests - 1]) ==>
              r == PollOutcome(Thrown(SocketTimeoutException), MaxPolls)
    decreases MaxPolls - n
  {
    if n == MaxPolls then PollOutcome(Thrown(SocketTimeoutException), MaxPolls)
    else if Terminal(replies[n]) then PollOutcome(EndOf(replies[n]), n + 1)
    else PollFrom(replies, n + 1)
  }

  /** The first terminal reply, when it comes within the budget, decides how polling ends. */
  lemma PollEndsAtFirstTerminal(replies: seq<PollReply>, k: nat)
    requires |replies| >= MaxPolls && k < MaxPolls
    requires Terminal(replies[k]) && forall j | 0 <= j < k :: !Terminal(replies[j])
    ensures PollFrom(replies, 0) == PollOutcome(EndOf(replies[k]), k + 1)
  {
    var r := PollFrom(replies, 0);
    // No terminal reply comes before the last request, so k is not before it ...
    assert k >= r.requests - 1;
    // ... and a non-terminal last reply would mean MaxPolls requests, which k < MaxPolls rules out.
    assert r.requests - 1 < k ==> r.requests == MaxPolls;
  }

  /** With no terminal reply among the first MaxPolls, polling times out after exactly MaxPolls requests. */
  lemma PollTimesOut(replies: seq<PollReply>)
    requires |replies| >= MaxPolls
    requires forall j | 0 <= j < MaxPolls :: !Terminal(replies[j])
    ensures PollFrom(replies, 0) == PollOutcome(Thrown(SocketTimeoutException), MaxPolls)
  {
  }

  /** The polling loop of doWork, over the replies to successive status requests. */
  method PollUntilTerminal(replies: seq<PollReply>) returns (end: PollEnd, requests: nat)
    requires |replies| >= MaxPolls
    ensures PollOutcome(end, requests) == PollFrom(replies, 0)
  {
    var waited := 0;
    var ready := false;
    requests := 0;
    while waited <= MaxWaitMs
      invariant requests <= MaxPolls && waited == requests * PollIntervalMs
      invariant PollFrom(replies, requests) == PollFrom(replies, 0)
      invariant !ready
    {
      var st := replies[requests];
      requests := requests + 1;
      if st.PollFailed? {
        return Thrown(st.e), requests;
      }
      if IsReady(st.status) {
        ready := true;
        break;
      }
      if IsError(st.status) {
        return Thrown(RuntimeException), requests;
      }
      waited := waited + PollIntervalMs;
    }
    if !ready {
      return Thrown(SocketTimeoutException), requests;
    }
    end := Ready;
  }

  // ------------------------------------------------------------- the run

  function RawPath(filesDir: string): string {
    filesDir + "/raw/lockscreen_raw.mp4"
  }

  function LockPath(filesDir: string): string {
    filesDir + "/lock/lockscreen.mp4"
  }

  /** The side effects of one run, as seen from outside. */
  datatype Trace = Trace(
    request: GenerateRequest,      // the body sent to generateVideo
    statusRequests: nat,           // getStatus calls made
    downloads: seq<string>,        // URLs fetched
    rawWritten: Option<seq<bv8>>,  // what was written to the staging file, if anything
    lockWritten: Option<seq<bv8>>, // what was copied to the lock-screen file, if anything
    latestPath: Option<string>)    // the path handed to setLatestVideo, if any

  /** One run: the result, the exception doWork caught (None on success), and the trace. */
  datatype Run = Run(result: WorkResult, caught: Option<Exception>, trace: Trace)

  /** How the download stage ends, and what it writes. */
  datatype Download = Download(caught: Option<Exception>, raw: Option<seq<bv8>>, lock: Option<seq<bv8>>)

  /** A 2xx response whose Content-Type header is present and starts with "video/". */
  predicate VideoReply(reply: DownloadReply) {
    && reply.Response? && 200 <= reply.code <= 299
    && reply.contentType.Some? && StartsWith(reply.contentType.value, "video/")
  }

  /**
   * The download stage, from the response to the end of the `use` block:
   * which exception escapes it, and what the two files receive.
   */
  function DownloadStage(reply: DownloadReply): (d: Download)
    ensures d.lock.Some? <==> d.caught.None?
    ensures d.raw.Some? ==> VideoReply(reply) && reply.body.Some?
    ensures d.caught.None? ==> reply.Response? && reply.body == Some(Complete(d.lock.value)) && d.raw == d.lock
    ensures VideoReply(reply) && reply.body.Some? && reply.body.value.Complete? ==>
              d == Download(None, Some(reply.body.value.bytes), Some(reply.body.value.bytes))
    ensures VideoReply(reply) && reply.body.Some? && reply.body.value.Broken? ==>
              d == Download(Some(reply.body.value.e), Some(reply.body.value.prefix), None)
    ensures VideoReply(reply) && reply.body.None? ==> d == Download(Some(IllegalStateException), None, None)
    ensures reply.DownloadFailed? ==> d == Download(Some(reply.e), None, None)
    ensures reply.Response? && !(200 <= reply.code <= 299) ==> d == Download(Some(IOException), None, None)
    ensures reply.Response? && 200 <= reply.code <= 299 && !VideoReply(reply) ==>
              d.raw.None? &&
              d.caught == Some(if reply.body.Some? && reply.body.value.Broken? then reply.body.value.e else IOException)
  {
    match reply
    case DownloadFailed(e) => Download(Some(e), None, None)
    case Response(code, ctype, body) =>
      if !(200 <= code <= 299) then Download(Some(IOException), None, None)
      else
        var ct := if ctype.Some? then ctype.value else "";
        if !StartsWith(ct, "video/") then
          // the error body is read for the message; reading it can throw
          if body.Some? && body.value.Broken? then Download(Some(body.value.e), None, None)
          else Download(Some(IOException), None, None)
        else if body.None? then Download(Some(IllegalStateException), None, None)
        else
          match body.value
          case Broken(prefix, e) => Download(Some(e), Some(prefix), None)
          case Complete(bytes) => Download(None, Some(bytes), Some(bytes))
  }

  /** The settings a run sends. */
  function RequestFor(u: Prefs.UserPrefs): GenerateRequest {
    GenerateRequest(u.cast, u.background, u.aspect, u.durationSec)
  }

  /** A whole run of doWork, from the settings read at its start and the remote side's answers. */
  function RunOf(u: Prefs.UserPrefs, filesDir: string, submit: SubmitReply,
                 replies: seq<PollReply>, download: DownloadReply): (r: Run)
    requires |replies| >= MaxPolls
    ensures submit.SubmitFailed? ==> r.trace.statusRequests == 0 && r.trace.downloads == []
    ensures submit.SubmitFailed? ==> r.caught == Some(submit.e) && r.result == ResultFor(submit.e)
    ensures r.trace.downloads == [] || (submit.Accepted? && r.trace.downloads == [submit.downloadUrl])
    ensures r.trace.rawWritten.Some? ==> r.trace.downloads != []
  {
    var req := RequestFor(u);
    match submit
    case SubmitFailed(e) => Run(ResultFor(e), Some(e), Trace(req, 0, [], None, None, None))
    case Accepted(jobId, url) =>
      var p := PollFrom(replies, 0);
      if p.end.Thrown? then
        Run(ResultFor(p.end.e), Some(p.end.e), Trace(req, p.requests, [], None, None, None))
      else
        var d := DownloadStage(download);
        var latest := if d.caught.None? then Some(LockPath(filesDir)) else None;
        var result := if d.caught.None? then Success else ResultFor(d.caught.value);
        Run(result, d.caught, Trace(req, p.requests, [url], d.raw, d.lock, latest))
  }

  // ------------------------------------------------ properties of a run

  /** Success exactly when nothing was thrown; retry exactly when a SocketTimeoutException was. */
  lemma ResultMapsCaughtException(u: Prefs.UserPrefs, filesDir: string, submit: SubmitReply,
                                  replies: seq<PollReply>, download: DownloadReply)
    requires |replies| >= MaxPolls
    ensures var r := RunOf(u, filesDir, submit, replies, download);
            && (r.result == Success <==> r.caught.None?)
            && (r.result == Retry <==> r.caught == Some(SocketTimeoutException))
            && (r.result == Failure <==> r.caught.Some? && r.caught != Some(SocketTimeoutException))
  {
  }

  /** The latest path is written exactly on success, with the lock-screen path, after both files hold the body. */
  lemma LatestWrittenOnlyOnSuccess(u: Prefs.UserPrefs, filesDir: string, submit: SubmitReply,
                                   replies: seq<PollReply>, download: DownloadReply)
    requires |replies| >= MaxPolls
    ensures var r := RunOf(u, filesDir, submit, replies, download);
            && (r.trace.latestPath.Some? <==> r.result == Success)
            && (r.result == Success ==>
                  && r.trace.latestPath == Some(LockPath(filesDir))
                  && r.trace.lockWritten.Some?
                  && r.trace.rawWritten == r.trace.lockWritten
                  && |r.trace.downloads| == 1)
  {
  }

  /** At most 301 status requests and at most one download; the request carries the settings read. */
  lemma RunBounds(u: Prefs.UserPrefs, filesDir: string, submit: SubmitReply,
                  replies: seq<PollReply>, download: DownloadReply)
    requires |replies| >= MaxPolls
    ensures var r := RunOf(u, filesDir, submit, replies, download);
            && r.trace.statusRequests <= MaxPolls
            && |r.trace.downloads| <= 1
            && r.trace.request == GenerateRequest(u.cast, u.background, u.aspect, u.durationSec)
  {
  }

  /** A "ready" reply in any letter case, first among the terminal ones, leads to downloading the job's URL. */
  lemma ReadyLeadsToDownload(u: Prefs.UserPrefs, filesDir: string, jobId: string, url: string,
                             replies: seq<PollReply>, download: DownloadReply, k: nat)
    requires |replies| >= MaxPolls && k < MaxPolls
    requires replies[k].StatusReply? && IsReady(replies[k].status)
    requires forall j | 0 <= j < k :: !Terminal(replies[j])
    ensures var r := RunOf(u, filesDir, Accepted(jobId, url), replies, download);
            r.trace.statusRequests == k + 1 && r.trace.downloads == [url]
  {
    PollEndsAtFirstTerminal(replies, k);
  }

  /** An "error" reply in any letter case, first among the terminal ones, fails the run without a download. */
  lemma ErrorStatusFails(u: Prefs.UserPrefs, filesDir: string, jobId: string, url: string,
                         replies: seq<PollReply>, download: DownloadReply, k: nat)
    requires |replies| >= MaxPolls && k < MaxPolls
    requires replies[k].StatusReply? && IsError(replies[k].status)
    requires forall j | 0 <= j < k :: !Terminal(replies[j])
    ensures var r := RunOf(u, filesDir, Accepted(jobId, url), replies, download);
            && r.result == Failure
            && r.trace.statusRequests == k + 1
            && r.trace.downloads == []
            && r.trace.rawWritten.None? && r.trace.latestPath.None?
  {
    ReadyAndErrorExclusive(replies[k].status);
    PollEndsAtFirstTerminal(replies, k);
  }

  /** No terminal reply within the budget: 301 requests, then a retry, and nothing downloaded. */
  lemma NoTerminalStatusRetries(u: Prefs.UserPrefs, filesDir: string, jobId: string, url: string,
                                replies: seq<PollReply>, download: DownloadReply)
    requires |replies| >= MaxPolls
    requires forall j | 0 <= j < MaxPolls :: !Terminal(replies[j])
    ensures var r := RunOf(u, filesDir, Accepted(jobId, url), replies, download);
            && r.result == Retry
            && r.trace.statusRequests == MaxPolls
            && r.trace.downloads == []
            && r.trace.rawWritten.None? && r.trace.latestPath.None?
  {
    PollTimesOut(replies);
  }

  /**
   * A first terminal "ready" followed by any 2xx response whose Content-Type
   * starts with "video/" and whose body is read completely: the run succeeds,
   * both files hold the body, and the lock-screen path is recorded.
   */
  lemma VideoDownloadSucceeds(u: Prefs.UserPrefs, filesDir: string, jobId: string, url: string,
                              replies: seq<PollReply>, code: int, ctype: string, bytes: seq<bv8>, k: nat)
    requires |replies| >= MaxPolls && k < MaxPolls
    requires replies[k].StatusReply? && IsReady(replies[k].status)
    requires forall j | 0 <= j < k :: !Terminal(replies[j])
    requires 200 <= code <= 299 && StartsWith(ctype, "video/")
    ensures var r := RunOf(u, filesDir, Accepted(jobId, url), replies, Response(code, Some(ctype), Some(Complete(bytes))));
            && r.result == Success
            && r.caught.None?
            && r.trace.downloads == [url]
            && r.trace.rawWritten == Some(bytes) && r.trace.lockWritten == Some(bytes)
            && r.trace.latestPath == Some(LockPath(filesDir))
  {
    PollEndsAtFirstTerminal(replies, k);
  }

  /** A status request that throws, before any "ready" or "error", ends the run with that exception. */
  lemma PollExceptionIsCaught(u: Prefs.UserPrefs, filesDir: string, jobId: string, url: string,
                              replies: seq<PollReply>, download: DownloadReply, k: nat)
    requires |replies| >= MaxPolls && k < MaxPolls
    requires replies[k].PollFailed?
    requires forall j | 0 <= j < k :: !Terminal(replies[j])
    ensures var r := RunOf(u, filesDir, Accepted(jobId, url), replies, download);
            && r.caught == Some(replies[k].e)
            && r.result == ResultFor(replies[k].e)
            && r.trace.statusRequests == k + 1
            && r.trace.downloads == []
            && r.trace.rawWritten.None? && r.trace.latestPath.None?
  {
    PollEndsAtFirstTerminal(replies, k);
  }

  /**
   * After a first terminal "ready", the exception the download raises is the
   * one the run ends with: the request's own, IllegalStateException for a
   * video response without a body, or the exception that broke off reading
   * the body, after the prefix read so far reached the staging file.
   */
  lemma DownloadExceptionIsCaught(u: Prefs.UserPrefs, filesDir: string, jobId: string, url: string,
                                  replies: seq<PollReply>, download: DownloadReply, k: nat)
    requires |replies| >= MaxPolls && k < MaxPolls
    requires replies[k].StatusReply? && IsReady(replies[k].status)
    requires forall j | 0 <= j < k :: !Terminal(replies[j])
    ensures var r := RunOf(u, filesDir, Accepted(jobId, url), replies, download);
            && r.trace.downloads == [url]
            && (download.DownloadFailed? ==>
                  && r.caught == Some(download.e) && r.result == ResultFor(download.e)
                  && r.trace.rawWritten.None? && r.trace.latestPath.None?)
            && (VideoReply(download) && download.body.None? ==>
                  && r.caught == Some(IllegalStateException) && r.result == Failure
                  && r.trace.rawWritten.None? && r.trace.latestPath.None?)
            && (VideoReply(download) && download.body.Some? && download.body.value.Broken? ==>
                  && r.caught == Some(download.body.value.e) && r.result == ResultFor(download.body.value.e)
                  && r.trace.rawWritten == Some(download.body.value.prefix)
                  && r.trace.lockWritten.None? && r.trace.latestPath.None?)
  {
    PollEndsAtFirstTerminal(replies, k);
  }

  /**
   * A SocketTimeoutException from the submit, from a status request before
   * any terminal status, or from the download after "ready" makes the run
   * ask for a retry.
   */
  lemma TimeoutsRetry(u: Prefs.UserPrefs, filesDir: string, submit: SubmitReply,
                      replies: seq<PollReply>, download: DownloadReply, k: nat)
    requires |replies| >= MaxPolls && k < MaxPolls
    requires forall j | 0 <= j < k :: !Terminal(replies[j])
    requires || submit == SubmitFailed(SocketTimeoutException)
             || (submit.Accepted? && replies[k] == PollFailed(SocketTimeoutException))
             || (submit.Accepted? && replies[k].StatusReply? && IsReady(replies[k].status)
                 && download == DownloadFailed(SocketTimeoutException))
    ensures RunOf(u, filesDir, submit, replies, download).result == Retry
  {
    if submit.Accepted? {
      PollEndsAtFirstTerminal(replies, k);
    }
  }

  /** A download answered with a non-2xx status fails the run and writes nothing. */
  lemma HttpErrorFails(u: Prefs.UserPrefs, filesDir: string, submit: SubmitReply,
                       replies: seq<PollReply>, code: int, ctype: Option<string>, body: Option<Body>)
    requires |replies| >= MaxPolls
    requires !(200 <= code <= 299)
    ensures var r := RunOf(u, filesDir, submit, replies, Response(code, ctype, body));
            && r.result != Success
            && r.trace.rawWritten.None? && r.trace.lockWritten.None? && r.trace.latestPath.None?
            && (r.trace.downloads != [] ==> r.result == Failure)
  {
  }

  /**
   * A successful download whose Content-Type is missing or does not start
   * with "video/" writes neither file nor preference, and fails unless
   * reading the error body itself timed out.
   */
  lemma NonVideoFails(u: Prefs.UserPrefs, filesDir: string, submit: SubmitReply,
                      replies: seq<PollReply>, code: int, ctype: Option<string>, body: Option<Body>)
    requires |replies| >= MaxPolls
    requires 200 <= code <= 299
    requires ctype.None? || !StartsWith(ctype.value, "video/")
    ensures var r := RunOf(u, filesDir, submit, replies, Response(code, ctype, body));
            var readTimedOut := body.Some? && body.value.Broken? && body.value.e == SocketTimeoutException;
            && r.result != Success
            && r.trace.rawWritten.None? && r.trace.lockWritten.None? && r.trace.latestPath.None?
            && (r.trace.downloads != [] && !readTimedOut ==> r.result == Failure)
  {
    if ctype.None? {
      assert !StartsWith("", "video/");
    }
  }

  /** Statuses pending, pending, ready and a good video response: success after three polls and one download. */
  lemma ExampleReadyOnThirdPoll(u: Prefs.UserPrefs, filesDir: string, jobId: string, url: string,
                                replies: seq<PollReply>, bytes: seq<bv8>)
    requires |replies| >= MaxPolls
    requires replies[0] == StatusReply("pending", None) && replies[1] == StatusReply("PENDING", None)
    requires replies[2] == StatusReply("Ready", None)
    ensures var r := RunOf(u, filesDir, Accepted(jobId, url), replies,
                           Response(200, Some("video/mp4"), Some(Complete(bytes))));
            && r.result == Success
            && r.trace.statusRequests == 3
            && r.trace.downloads == [url]
            && r.trace.latestPath == Some(LockPath(filesDir))
            && r.trace.lockWritten == Some(bytes)
  {
    assert !IsReady("pending") && !IsError("pending") by {
      assert UpperAscii("pending"[0]) == 'P';
    }
    assert !IsReady("PENDING") && !IsError("PENDING") by {
      assert UpperAscii("PENDING"[0]) == 'P';
    }
    assert IsReady("Ready") by {
      assert forall i | 0 <= i < 5 :: UpperAscii("Ready"[i]) == UpperAscii("ready"[i]);
    }
    ReadyLeadsToDownload(u, filesDir, jobId, url, replies, Response(200, Some("video/mp4"), Some(Complete(bytes))), 2);
    assert StartsWith("video/mp4", "video/");
  }

  // ---------------------------------------------------- the file system

  /** The app's private files, by absolute path. */
  class FileStore {
    var files: map<string, seq<bv8>>

    constructor (initial: map<string, seq<bv8>>)
      ensures files == initial
    {
      files := initial;
    }

    /** Open the file for output (truncating it) and write the bytes. */
    method Write(path: string, data: seq<bv8>)
      modifies this
      ensures files == old(files)[path := data]
    {
      files := files[path := data];
    }

    /** File.copyTo(target, overwrite = true). */
    method CopyTo(source: string, target: string)
      requires source in files
      modifies this
      ensures files == old(files)[target := old(files)[source]]
    {
      files := files[target := files[source]];
    }
  }

  /** The files after a run with the given trace. */
  function FilesAfter(files: map<string, seq<bv8>>, filesDir: string, t: Trace): map<string, seq<bv8>> {
    var staged := if t.rawWritten.Some? then files[RawPath(filesDir) := t.rawWritten.value] else files;
    if t.lockWritten.Some? then staged[LockPath(filesDir) := t.lockWritten.value] else staged
  }

  // --------------------------------------------------------------- doWork

  /**
   * doWork: the result and trace are those of RunOf for the settings read
   * at the start; the preference store changes only by the latest-path
   * write, and the files only by the staging and lock-screen writes.
   */
  method DoWork(prefs: Prefs.PrefsRepository, fs: FileStore, filesDir: string,
                submit: SubmitReply, replies: seq<PollReply>, download: DownloadReply)
    returns (result: WorkResult, trace: Trace)
    requires prefs.Valid() && |replies| >= MaxPolls
    modifies prefs, fs
    ensures prefs.Valid()
    ensures var r := RunOf(old(prefs.Flow()), filesDir, submit, replies, download);
            result == r.result && trace == r.trace
    ensures prefs.store == if trace.latestPath.Some? then Prefs.WithLatest(old(prefs.store), trace.latestPath.value)
                           else old(prefs.store)
    ensures fs.files == FilesAfter(old(fs.files), filesDir, trace)
  {
    var u := prefs.Flow();
    trace := Trace(RequestFor(u), 0, [], None, None, None);

    if submit.SubmitFailed? {
      return ResultFor(submit.e), trace;
    }
    var end, requests := PollUntilTerminal(replies);
    trace := trace.(statusRequests := requests);
    if end.Thrown? {
      return ResultFor(end.e), trace;
    }

    trace := trace.(downloads := [submit.downloadUrl]);
    if download.DownloadFailed? {
      return ResultFor(download.e), trace;
    }
    if !(200 <= download.code <= 299) {
      return ResultFor(IOException), trace;
    }
    var ctype := if download.contentType.Some? then download.contentType.value else "";
    if !StartsWith(ctype, "video/") {
      if download.body.Some? && download.body.value.Broken? {
        return ResultFor(download.body.value.e), trace;
      }
      return ResultFor(IOException), trace;
    }
    if download.body.None? {
      return ResultFor(IllegalStateException), trace;
    }

    var raw := RawPath(filesDir);
    match download.body.value {
      case Broken(prefix, e) =>
        fs.Write(raw, prefix);
        trace := trace.(rawWritten := Some(prefix));
        return ResultFor(e), trace;
      case Complete(bytes) =>
        fs.Write(raw, bytes);
        trace := trace.(rawWritten := Some(bytes));
        var out := LockPath(filesDir);
        fs.CopyTo(raw, out);
        trace := trace.(lockWritten := Some(bytes));
        prefs.SetLatestVideo(out);
        trace := trace.(latestPath := Some(out));
        return Success, trace;
    }
  }
}
