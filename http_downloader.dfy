/**
  * The resumable chunk loop of `HttpDownloader.download`.
  *
  * The loop fetches consecutive byte ranges through a chunk transport,
  * refreshing the stream URL before it reaches the per-URL budget and after
  * an HTTP 403.  Everything outside the loop is an input, in an `Env`: the
  * URL refresher, the transport, the chunk-size jitter and the answers of
  * the controller's `isCancelled`, each indexed by the number of calls made
  * to it so far.  The method records every call it makes in a log of steps.
  * `Replay` reads the loop's variables back from a log, `WF` states which
  * step may follow a given log, and the lemmas state what every log the
  * rules allow has in common.
  */
module HttpDownloader {
  import opened Wrappers
  import opened Text
  import opened Domain
  import opened ChunkTransport

  /** `CHUNK_SIZE`: 10 MiB. */
  const ChunkSize: int := 10485760
  /** 95% of `CHUNK_SIZE`, the smallest jittered chunk. */
  const MinChunkSize: int := 9961472
  /** `URL_BUDGET_THRESHOLD`: 15 MiB. */
  const UrlBudget: int := 15728640
  /** `MAX_URL_REFRESHES`. */
  const MaxRefreshes: int := 100

  datatype HttpDownloadResult = HttpDownloadResult(
    filePath: string,
    totalBytes: Option<int>,
    downloadedBytes: int,
    eTag: Option<string>,
    lastModified: Option<string>)

  /** The arguments of one `downloadChunk` call that vary between calls. */
  datatype ChunkRequest = ChunkRequest(url: string, startByte: int, endByte: int, append: bool)

  /**
    * The loop's surroundings.  `refresher` is the optional URL refresher and
    * answers its k-th call; `transport` answers the k-th chunk request;
    * `jitter` is the k-th drawn chunk size; `cancelled` is the answer of the
    * k-th `isCancelled` call.
    */
  datatype Env = Env(
    refresher: Option<nat -> Option<string>>,
    transport: (nat, ChunkRequest) -> ChunkReply,
    jitter: nat -> int,
    cancelled: nat -> bool)

  /**
    * The jitter stays within 95% and 100% of a chunk, and once the
    * controller answers cancelled it keeps doing so.
    */
  ghost predicate Admissible(env: Env)
  {
    && (forall k: nat :: MinChunkSize <= env.jitter(k) <= ChunkSize)
    && (forall i: nat, j: nat :: i <= j && env.cancelled(i) ==> env.cancelled(j))
  }

  /** One chunk call: the request, the chunk size drawn for it, and the transport's reply. */
  datatype ChunkCall = ChunkCall(request: ChunkRequest, size: int, reply: ChunkReply)

  /** A proactive refresh, a chunk call, or a refresh after an HTTP 403. */
  datatype Step = Proactive(freshUrl: Option<string>) | Chunk(call: ChunkCall) | Reactive(freshUrl: Option<string>)

  /** The reason the loop stopped. */
  datatype Exit = CancelledExit | ChunkFailed | Finished | OutOfFuel

  /** What `onProgress` receives: the running byte count and the total known at that point. */
  datatype ProgressReport = ProgressReport(downloaded: int, total: Option<int>)

  /** `[A-Z_]`. */
  predicate IsCdnClientChar(c: char)
  {
    'A' <= c <= 'Z' || c == '_'
  }

  /** The group of a match of `[?&]c=([A-Z_]+)` starting at `i`. */
  function CdnClientAt(url: string, i: nat): Option<string>
  {
    if i + 3 < |url| && (url[i] == '?' || url[i] == '&') && url[i + 1] == 'c' && url[i + 2] == '=' && IsCdnClientChar(url[i + 3])
    then Some(url[i + 3..RunEnd(url, i + 3, IsCdnClientChar)])
    else None
  }

  /** `extractCdnClient`: the `c` query parameter of a stream URL, at its leftmost match. */
  function ExtractCdnClient(url: string): Option<string>
  {
    Find(|url|, (i: nat) => CdnClientAt(url, i))
  }

  /** A chunk the loop keeps: no error and a 2xx status. */
  predicate Accepted(c: ChunkCall)
  {
    c.reply.result.error.None? && IsSuccessStatus(c.reply.result.httpStatus)
  }

  predicate IsRefresh(s: Step)
  {
    s.Proactive? || s.Reactive?
  }

  predicate IsAcceptedChunk(s: Step)
  {
    s.Chunk? && Accepted(s.call)
  }

  // ---------------------------------------------------------------------------
  // The loop's variables, replayed from the log
  // ---------------------------------------------------------------------------

  /** The loop's local variables, and everything passed to `onProgress` so far. */
  datatype LoopVars = LoopVars(
    downloaded: int,
    totalBytes: Option<int>,
    eTag: Option<string>,
    lastModified: Option<string>,
    isFirstChunk: bool,
    currentUrl: string,
    bytesWithCurrentUrl: int,
    urlRefreshCount: nat,
    refreshCalls: nat,
    chunkCalls: nat,
    progress: seq<ProgressReport>)

  /** What `onProgress` receives while a chunk reports `counts`, starting from `downloaded`. */
  function ProgressSteps(downloaded: int, total: Option<int>, counts: seq<int>): seq<ProgressReport>
  {
    if counts == [] then []
    else ProgressSteps(downloaded, total, counts[..|counts| - 1]) + [ProgressReport(downloaded + Sum(counts), total)]
  }

  /** A refresh call: a returned URL replaces the current one and restarts its byte counter. */
  function ApplyRefresh(v: LoopVars, freshUrl: Option<string>): LoopVars
  {
    if freshUrl.Some? then
      v.(currentUrl := freshUrl.value, bytesWithCurrentUrl := 0,
         urlRefreshCount := v.urlRefreshCount + 1, refreshCalls := v.refreshCalls + 1)
    else v.(refreshCalls := v.refreshCalls + 1)
  }

  /** A chunk call, as far as its reported counts go: every count grows `downloaded` and reaches `onProgress`. */
  function ApplyReports(v: LoopVars, c: ChunkCall): LoopVars
  {
    v.(downloaded := v.downloaded + Sum(c.reply.reported),
       progress := v.progress + ProgressSteps(v.downloaded, v.totalBytes, c.reply.reported),
       chunkCalls := v.chunkCalls + 1)
  }

  /** An accepted chunk: count its bytes against the URL, fix the total if still unknown, and take the validators of the first chunk. */
  function ApplyAccepted(v: LoopVars, result: ChunkResult): LoopVars
  {
    v.(bytesWithCurrentUrl := v.bytesWithCurrentUrl + result.bytesDownloaded,
       totalBytes := if v.totalBytes.None? then result.totalContentLength else v.totalBytes,
       eTag := if v.isFirstChunk then result.eTag else v.eTag,
       lastModified := if v.isFirstChunk then result.lastModified else v.lastModified,
       isFirstChunk := false)
  }

  /** The variables after one step. */
  function Apply(v: LoopVars, s: Step): LoopVars
  {
    if IsRefresh(s) then ApplyRefresh(v, s.freshUrl)
    else if Accepted(s.call) then ApplyAccepted(ApplyReports(v, s.call), s.call.reply.result)
    else ApplyReports(v, s.call)
  }

  /** The variables before the loop. */
  function Initial(url: string, resume: int): LoopVars
  {
    LoopVars(resume, None, None, None, true, url, 0, 0, 0, 0, [])
  }

  /** The variables after every step of `log`. */
  function Replay(url: string, resume: int, log: seq<Step>): LoopVars
  {
    if log == [] then Initial(url, resume) else Apply(Replay(url, resume, log[..|log| - 1]), log[|log| - 1])
  }

  /** The last chunk call in the log. */
  function LastCall(log: seq<Step>): Option<ChunkCall>
  {
    if log == [] then None
    else if log[|log| - 1].Chunk? then Some(log[|log| - 1].call)
    else LastCall(log[..|log| - 1])
  }

  // ---------------------------------------------------------------------------
  // Which step may come next
  // ---------------------------------------------------------------------------

  /** The loop's two exits after an accepted chunk: the total is reached, or the chunk came back short. */
  predicate Finishing(v: LoopVars, c: ChunkCall)
  {
    (v.totalBytes.Some? && v.downloaded >= v.totalBytes.value) || c.reply.result.bytesDownloaded < c.size
  }

  /**
    * The log ends where an iteration begins: at the start, after an accepted
    * chunk that does not finish the loop, or after a 403 refresh that
    * returned a URL.
    */
  predicate AtIterationStart(url: string, resume: int, log: seq<Step>)
  {
    || log == []
    || (IsAcceptedChunk(log[|log| - 1]) && !Finishing(Replay(url, resume, log), log[|log| - 1].call))
    || (log[|log| - 1].Reactive? && log[|log| - 1].freshUrl.Some?)
  }

  /** The proactive refresh condition. */
  predicate ProactiveDue(env: Env, v: LoopVars)
  {
    env.refresher.Some? && v.bytesWithCurrentUrl >= UrlBudget && v.urlRefreshCount < MaxRefreshes
  }

  /** The reactive refresh condition, right after a chunk call. */
  predicate ReactiveDue(env: Env, v: LoopVars, c: ChunkCall)
  {
    c.reply.result.httpStatus == 403 && env.refresher.Some? && v.urlRefreshCount < MaxRefreshes
  }

  function Min(a: int, b: int): int
  {
    if a <= b then a else b
  }

  /** `rangeEnd`: the last byte of a chunk, capped at the last byte of the file once the total is known. */
  function RangeEnd(start: int, size: int, total: Option<int>): int
  {
    if total.Some? then Min(start + size - 1, total.value - 1) else start + size - 1
  }

  /** `effectiveChunkSize`: a full chunk first, then a drawn size. */
  function SizeFor(env: Env, v: LoopVars): int
  {
    if v.isFirstChunk then ChunkSize else env.jitter(v.chunkCalls)
  }

  /** The request the loop sends from the variables `v`, for a chunk of `size` bytes. */
  function RequestFor(v: LoopVars, resume: int, size: int): ChunkRequest
  {
    ChunkRequest(v.currentUrl, v.downloaded, RangeEnd(v.downloaded, size, v.totalBytes), !v.isFirstChunk || resume > 0)
  }

  /** A chunk call may follow `log`: an iteration begins with no cancellation and no refresh due, or a proactive refresh was just made. */
  predicate ChunkMayFollow(url: string, resume: int, env: Env, log: seq<Step>)
  {
    var v := Replay(url, resume, log);
    || (AtIterationStart(url, resume, log) && !env.cancelled(v.chunkCalls) && !ProactiveDue(env, v))
    || (log != [] && log[|log| - 1].Proactive?)
  }

  /** The step `s` may follow `log`. */
  predicate StepOk(url: string, resume: int, env: Env, log: seq<Step>, s: Step)
  {
    var v := Replay(url, resume, log);
    match s
    case Proactive(freshUrl) =>
      && AtIterationStart(url, resume, log) && !env.cancelled(v.chunkCalls)
      && ProactiveDue(env, v) && freshUrl == env.refresher.value(v.refreshCalls)
    case Chunk(c) =>
      && ChunkMayFollow(url, resume, env, log)
      && c.size == SizeFor(env, v)
      && c.request == RequestFor(v, resume, c.size)
      && c.reply == env.transport(v.chunkCalls, c.request)
    case Reactive(freshUrl) =>
      && log != [] && log[|log| - 1].Chunk? && ReactiveDue(env, v, log[|log| - 1].call)
      && freshUrl == env.refresher.value(v.refreshCalls)
  }

  /** Every step of the log follows the loop's rules. */
  predicate WF(url: string, resume: int, env: Env, log: seq<Step>)
  {
    log == [] || (WF(url, resume, env, log[..|log| - 1]) && StepOk(url, resume, env, log[..|log| - 1], log[|log| - 1]))
  }

  /** The message of the `NetworkFailure` for a rejected chunk: `result.error ?: "HTTP ${result.httpStatus}"`. */
  function FailureText(result: ChunkResult): string
  {
    if result.error.Some? then result.error.value else "HTTP " + IntToString(result.httpStatus)
  }

  /** The outcome after the loop: cancelled, else empty, else the collected result. */
  function Conclude(outputPath: string, cancelledNow: bool, v: LoopVars): Outcome<HttpDownloadResult>
  {
    if cancelledNow then Failure(CancelledError)
    else if v.downloaded == 0 then Failure(NetworkFailure("Empty response body"))
    else Success(HttpDownloadResult(outputPath, v.totalBytes, v.downloaded, v.eTag, v.lastModified))
  }

  // ---------------------------------------------------------------------------
  // The loop
  // ---------------------------------------------------------------------------

  /** The `onBytesWritten` callback, once per reported count: grow `downloaded` and pass it on. */
  method ReportCounts(downloaded: int, total: Option<int>, counts: seq<int>)
    returns (newDownloaded: int, reports: seq<ProgressReport>)
    ensures newDownloaded == downloaded + Sum(counts)
    ensures reports == ProgressSteps(downloaded, total, counts)
  {
    newDownloaded := downloaded;
    reports := [];
    var k := 0;
    while k < |counts|
      invariant 0 <= k <= |counts|
      invariant newDownloaded == downloaded + Sum(counts[..k])
      invariant reports == ProgressSteps(downloaded, total, counts[..k])
    {
      newDownloaded := newDownloaded + counts[k];
      reports := reports + [ProgressReport(newDownloaded, total)];
      assert counts[..k + 1][..k] == counts[..k];
      k := k + 1;
    }
    assert counts[..|counts|] == counts;
  }

  /** One more step: the log's prefix and last step, the replayed variables and well-formedness. */
  lemma Extend(url: string, resume: int, env: Env, log: seq<Step>, s: Step)
    requires WF(url, resume, env, log) && StepOk(url, resume, env, log, s)
    ensures var l := log + [s];
      && l[..|l| - 1] == log && l[|l| - 1] == s
      && Replay(url, resume, l) == Apply(Replay(url, resume, log), s)
      && LastCall(l) == (if s.Chunk? then Some(s.call) else LastCall(log))
      && WF(url, resume, env, l)
  {
    assert (log + [s])[..|log|] == log;
  }

  /** The proactive refresh at the top of an iteration, made when the URL has used up its budget. */
  method RefreshIfDue(url: string, resume: int, env: Env, log: seq<Step>, v: LoopVars)
    returns (newLog: seq<Step>, newVars: LoopVars)
    requires WF(url, resume, env, log) && AtIterationStart(url, resume, log)
    requires Replay(url, resume, log) == v && !env.cancelled(v.chunkCalls) && v.urlRefreshCount <= MaxRefreshes
    ensures WF(url, resume, env, newLog) && ChunkMayFollow(url, resume, env, newLog)
    ensures Replay(url, resume, newLog) == newVars && newVars.urlRefreshCount <= MaxRefreshes
    ensures newLog == if ProactiveDue(env, v) then log + [Proactive(env.refresher.value(v.refreshCalls))] else log
  {
    newLog, newVars := log, v;
    if env.refresher.Some? && v.bytesWithCurrentUrl >= UrlBudget && v.urlRefreshCount < MaxRefreshes {
      var freshUrl := env.refresher.value(v.refreshCalls);
      Extend(url, resume, env, log, Proactive(freshUrl));
      newLog := log + [Proactive(freshUrl)];
      newVars := v.(refreshCalls := v.refreshCalls + 1);
      if freshUrl.Some? {
        newVars := newVars.(currentUrl := freshUrl.value, bytesWithCurrentUrl := 0, urlRefreshCount := v.urlRefreshCount + 1);
      }
    }
  }

  /** One `downloadChunk` call, with its progress callbacks. */
  method FetchChunk(url: string, resume: int, env: Env, log: seq<Step>, v: LoopVars)
    returns (newLog: seq<Step>, newVars: LoopVars, call: ChunkCall)
    requires WF(url, resume, env, log) && ChunkMayFollow(url, resume, env, log) && Replay(url, resume, log) == v
    ensures newLog == log + [Chunk(call)] && WF(url, resume, env, newLog) && LastCall(newLog) == Some(call)
    ensures newVars == ApplyReports(v, call)
    ensures Replay(url, resume, newLog) == if Accepted(call) then ApplyAccepted(newVars, call.reply.result) else newVars
  {
    var size := if v.isFirstChunk then ChunkSize else env.jitter(v.chunkCalls);
    var rangeEnd := if v.totalBytes.Some? then Min(v.downloaded + size - 1, v.totalBytes.value - 1) else v.downloaded + size - 1;
    var request := ChunkRequest(v.currentUrl, v.downloaded, rangeEnd, !v.isFirstChunk || resume > 0);
    var reply := env.transport(v.chunkCalls, request);
    call := ChunkCall(request, size, reply);
    Extend(url, resume, env, log, Chunk(call));
    newLog := log + [Chunk(call)];
    var downloaded, reports := ReportCounts(v.downloaded, v.totalBytes, reply.reported);
    newVars := v.(downloaded := downloaded, progress := v.progress + reports, chunkCalls := v.chunkCalls + 1);
  }

  /** The refresh after an HTTP 403; a returned URL retries the chunk. */
  method RefreshAfter403(url: string, resume: int, env: Env, log: seq<Step>, v: LoopVars, call: ChunkCall)
    returns (newLog: seq<Step>, newVars: LoopVars, freshUrl: Option<string>)
    requires WF(url, resume, env, log) && log != [] && log[|log| - 1] == Chunk(call)
    requires Replay(url, resume, log) == v && ReactiveDue(env, v, call)
    ensures freshUrl == env.refresher.value(v.refreshCalls)
    ensures newLog == log + [Reactive(freshUrl)] && WF(url, resume, env, newLog)
    ensures LastCall(newLog) == LastCall(log)
    ensures Replay(url, resume, newLog) == newVars && newVars.urlRefreshCount <= MaxRefreshes
    ensures freshUrl.Some? ==> AtIterationStart(url, resume, newLog)
  {
    freshUrl := env.refresher.value(v.refreshCalls);
    Extend(url, resume, env, log, Reactive(freshUrl));
    newLog := log + [Reactive(freshUrl)];
    newVars := v.(refreshCalls := v.refreshCalls + 1);
    if freshUrl.Some? {
      newVars := newVars.(currentUrl := freshUrl.value, bytesWithCurrentUrl := 0, urlRefreshCount := v.urlRefreshCount + 1);
    }
  }

  /**
    * One pass of the loop after its cancellation check: the proactive
    * refresh, the chunk call, the refresh after a 403, and the bookkeeping
    * of an accepted chunk.  `stop` is `None` when the loop goes on, and
    * `failure` holds the message of a rejected chunk.
    */
  method Iteration(url: string, resume: int, env: Env, log: seq<Step>, v: LoopVars)
    returns (newLog: seq<Step>, newVars: LoopVars, stop: Option<Exit>, failure: string)
    requires WF(url, resume, env, log) && AtIterationStart(url, resume, log)
    requires Replay(url, resume, log) == v && !env.cancelled(v.chunkCalls) && v.urlRefreshCount <= MaxRefreshes
    ensures WF(url, resume, env, newLog) && |log| < |newLog| && newLog[..|log|] == log
    ensures Replay(url, resume, newLog) == newVars && newVars.urlRefreshCount <= MaxRefreshes
    ensures stop.None? ==> AtIterationStart(url, resume, newLog)
    ensures stop == None || stop == Some(ChunkFailed) || stop == Some(Finished)
    ensures stop == Some(ChunkFailed) ==>
      && LastCall(newLog).Some? && !Accepted(LastCall(newLog).value)
      && (newLog[|newLog| - 1] == Reactive(None)
          || (newLog[|newLog| - 1].Chunk? && !ReactiveDue(env, newVars, newLog[|newLog| - 1].call)))
      && failure == FailureText(LastCall(newLog).value.reply.result)
    ensures stop == Some(Finished) ==>
      IsAcceptedChunk(newLog[|newLog| - 1]) && Finishing(newVars, newLog[|newLog| - 1].call)
  {
    stop, failure := None, "";
    newLog, newVars := RefreshIfDue(url, resume, env, log, v);
    var call;
    newLog, newVars, call := FetchChunk(url, resume, env, newLog, newVars);
    var result := call.reply.result;
    if result.httpStatus == 403 && env.refresher.Some? && newVars.urlRefreshCount < MaxRefreshes {
      var freshUrl;
      newLog, newVars, freshUrl := RefreshAfter403(url, resume, env, newLog, newVars, call);
      if freshUrl.Some? {
        return;
      }
    }
    if result.error.Some? || !IsSuccessStatus(result.httpStatus) {
      failure := if result.error.Some? then result.error.value else "HTTP " + IntToString(result.httpStatus);
      stop := Some(ChunkFailed);
      return;
    }
    newVars := newVars.(bytesWithCurrentUrl := newVars.bytesWithCurrentUrl + result.bytesDownloaded);
    if newVars.totalBytes.None? {
      newVars := newVars.(totalBytes := result.totalContentLength);
    }
    if newVars.isFirstChunk {
      newVars := newVars.(eTag := result.eTag, lastModified := result.lastModified);
    }
    newVars := newVars.(isFirstChunk := false);
    if newVars.totalBytes.Some? && newVars.downloaded >= newVars.totalBytes.value {
      stop := Some(Finished);
      return;
    }
    if result.bytesDownloaded < call.size {
      stop := Some(Finished);
    }
  }

  /**
    * `download`: the chunk loop, run for at most `fuel` iterations
    * (`None` when they run out).  It returns the outcome, why the loop
    * stopped, the log of its calls and what it passed to `onProgress`.
    */
  method Download(url: string, outputPath: string, resumeBytes: int, env: Env, fuel: nat)
    returns (r: Option<Outcome<HttpDownloadResult>>, exit: Exit, log: seq<Step>, progress: seq<ProgressReport>)
    requires Admissible(env)
    ensures WF(url, resumeBytes, env, log)
    ensures progress == Replay(url, resumeBytes, log).progress
    ensures Replay(url, resumeBytes, log).urlRefreshCount <= MaxRefreshes
    ensures r.None? <==> exit == OutOfFuel
    ensures exit == OutOfFuel ==> AtIterationStart(url, resumeBytes, log)
    ensures exit == CancelledExit ==>
      && AtIterationStart(url, resumeBytes, log) && env.cancelled(Replay(url, resumeBytes, log).chunkCalls)
      && r == Some(Failure(CancelledError))
    ensures exit == ChunkFailed ==>
      && LastCall(log).Some? && !Accepted(LastCall(log).value)
      && (log[|log| - 1] == Reactive(None)
          || (log[|log| - 1].Chunk? && !ReactiveDue(env, Replay(url, resumeBytes, log), log[|log| - 1].call)))
      && r == Some(Failure(NetworkFailure(FailureText(LastCall(log).value.reply.result))))
    ensures exit == Finished ==>
      && log != [] && IsAcceptedChunk(log[|log| - 1])
      && Finishing(Replay(url, resumeBytes, log), log[|log| - 1].call)
      && var t := Replay(url, resumeBytes, log);
         r == Some(Conclude(outputPath, env.cancelled(t.chunkCalls), t))
  {
    var vars := Initial(url, resumeBytes);
    log := [];
    r := None;
    exit := OutOfFuel;
    var steps := 0;
    while steps < fuel
      invariant WF(url, resumeBytes, env, log) && AtIterationStart(url, resumeBytes, log)
      invariant Replay(url, resumeBytes, log) == vars && vars.urlRefreshCount <= MaxRefreshes
      invariant exit == OutOfFuel && r.None?
    {
      steps := steps + 1;
      if env.cancelled(vars.chunkCalls) {
        exit := CancelledExit;
        break;
      }
      var stop, failure;
      log, vars, stop, failure := Iteration(url, resumeBytes, env, log, vars);
      if stop == Some(ChunkFailed) {
        r := Some(Failure(NetworkFailure(failure)));
        exit := ChunkFailed;
        progress := vars.progress;
        return;
      }
      if stop == Some(Finished) {
        exit := Finished;
        break;
      }
    }
    progress := vars.progress;
    if exit == OutOfFuel {
      return;
    }
    var checkIndex := if exit == CancelledExit then vars.chunkCalls + 1 else vars.chunkCalls;
    if env.cancelled(checkIndex) {
      r := Some(Failure(CancelledError));
    } else if vars.downloaded == 0 {
      r := Some(Failure(NetworkFailure("Empty response body")));
    } else {
      r := Some(Success(HttpDownloadResult(outputPath, vars.totalBytes, vars.downloaded, vars.eTag, vars.lastModified)));
    }
  }
}
