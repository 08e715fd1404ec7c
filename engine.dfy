/**
  * The Ktor download engine: fetching a video's catalogue (player API
  * first, the watch page as fallback), validating the selected streams
  * with one retry on a fresh session, refreshing a stream URL by itag, and
  * the download pipeline with the events it emits for each output format.
  *
  * Every call the engine makes on the network, the converter, the muxer or
  * the file system is recorded in `calls`; the `World` answers the call at
  * position k of that record.  A stream transfer is one such call: its
  * answer is what `HttpDownloader.download` returned and the progress it
  * reported along the way.
  */
module KtorEngine {
  import opened Wrappers
  import opened Text
  import opened Domain
  import opened PageParser
  import opened Innertube
  import opened StreamSelector
  import opened FileNameSanitizer
  import HttpDownloader
  import DownloadControl

  /** What a URL refresher is created for: `createUrlRefresher(videoId, itag, isAudio)`. */
  datatype Refresher = Refresher(videoId: string, itag: int, isAudio: bool)

  /** A call on a collaborator, as recorded. */
  datatype Call =
    | SessionFetch(pageUrl: string)
    | PlayerFetch(videoId: string, session: Option<SessionData>)
    | PageFetch(pageUrl: string)
    | ProbeUrl(streamUrl: string)
    | Transfer(streamUrl: string, outputPath: string, resumeBytes: int, refresher: Refresher)
    | ConvertToMp3(inputPath: string, mp3Path: string)
    | MuxFiles(videoPath: string, audioPath: string, targetPath: string)
    | DeleteFile(path: string)

  /** One `onProgress` call of a transfer: the byte counts, and the speed the progress sampler returned. */
  datatype ProgressPoint = ProgressPoint(downloaded: int, total: Option<int>, speed: int)

  /** What a transfer reported and returned. */
  datatype Transferred = Transferred(points: seq<ProgressPoint>, outcome: Outcome<HttpDownloader.HttpDownloadResult>)

  /**
    * The engine's collaborators, and their answers to the call at position
    * k of the record.  The parser and the stream selector are given to the
    * engine when it is built, as the source's constructor takes them;
    * `sessions` and `player` are what the engine's Innertube client returned
    * (`None` for null or a thrown exception), `page` the watch page's text
    * (`None` when the request threw).  `parseVideoInfo` is `Raised` when the
    * parser throws, and `thrown` is then the message of the `NetworkFailure`.
    */
  datatype World = World(
    sessions: nat -> Option<SessionData>,
    player: nat -> Option<map<string, Json>>,
    page: nat -> Option<string>,
    parsePlayerResponse: map<string, Json> -> Outcome<VideoInfo>,
    parseVideoInfo: string -> Raising<Outcome<VideoInfo>>,
    thrown: string,
    select: (VideoInfo, QualityPreference, OutputFormat) -> Option<SelectedStreams>,
    probe: nat -> bool,
    transfer: nat -> Transferred,
    convert: nat -> Outcome<()>,
    mux: nat -> Outcome<()>)

  /**
    * The collaborators the engine builds by default: the page parser and the
    * stream selector of this model, and an Innertube client answering the
    * watch pages `pages` and the player API replies `replies`.
    */
  ghost predicate DefaultCollaborators(world: World, decode: string -> Option<Json>,
                                       pages: nat -> Option<PageResponse>, replies: nat -> Option<ApiResponse>)
  {
    && (forall k: nat :: world.sessions(k) == FetchSessionData(pages(k)))
    && (forall k: nat :: world.player(k) == FetchPlayerResponse(replies(k)))
    && (forall pr :: world.parsePlayerResponse(pr) == ParseFromPlayerResponse(pr))
    && (forall html :: world.parseVideoInfo(html) == ParseVideoInfo(html, decode))
    && (forall info, q, f :: world.select(info, q, f) == Select(info, q, f))
  }

  /**
    * With the default collaborators, a catalogue from the player API comes
    * from a successful reply whose body is the checked player response, and
    * a parsed catalogue holds at least one stream.
    */
  lemma DefaultCatalogue(world: World, decode: string -> Option<Json>,
                         pages: nat -> Option<PageResponse>, replies: nat -> Option<ApiResponse>, k: nat)
    requires DefaultCollaborators(world, decode, pages, replies)
    ensures ApiInfo(world, world.player(k)).Some? ==>
      && replies(k).Some? && replies(k).value.success
      && replies(k).value.body == Some(JObj(world.player(k).value))
    ensures ApiInfo(world, world.player(k)).Some? && ApiInfo(world, world.player(k)).value.Success? ==>
      var info := ApiInfo(world, world.player(k)).value.value;
      |info.streams| + |info.audioStreams| >= 1
  {
    if world.player(k).Some? {
      assert world.player(k) == FetchPlayerResponse(replies(k));
      assert world.parsePlayerResponse(world.player(k).value) == ParseFromPlayerResponse(world.player(k).value);
    }
  }

  // ---------------------------------------------------------------------------
  // Metadata
  // ---------------------------------------------------------------------------

  /** The catalogue parsed from the player API's answer, if there was one. */
  function ApiInfo(world: World, response: Option<map<string, Json>>): (r: Option<Outcome<VideoInfo>>)
    ensures r.Some? <==> response.Some?
    ensures r.Some? ==> r.value == world.parsePlayerResponse(response.value)
  {
    if response.None? then None else Some(world.parsePlayerResponse(response.value))
  }

  /** A parse result the engine accepts: a success with at least one video stream. */
  predicate Usable(o: Outcome<VideoInfo>)
  {
    o.Success? && o.value.streams != []
  }

  /** The fallback: parse the watch page, if it was fetched; a thrown parse is a `NetworkFailure`. */
  function PageInfo(world: World, html: Option<string>): (r: Outcome<VideoInfo>)
    ensures r.Success? ==> r.value.streams != [] && html.Some? && world.parseVideoInfo(html.value) == Returned(r)
    ensures r.Failure? ==> r.error == VideoUnavailable || r.error == NetworkFailure(world.thrown)
    ensures html.None? ==> r == Failure(VideoUnavailable)
    ensures html.Some? && world.parseVideoInfo(html.value).Raised? ==> r == Failure(NetworkFailure(world.thrown))
  {
    match html
    case None => Failure(VideoUnavailable)
    case Some(h) =>
      match world.parseVideoInfo(h)
      case Raised => Failure(NetworkFailure(world.thrown))
      case Returned(o) => if Usable(o) then o else Failure(VideoUnavailable)
  }

  // ---------------------------------------------------------------------------
  // The refresher's lookup
  // ---------------------------------------------------------------------------

  /** The first index of `xs` whose itag is `itag`, or -1: Kotlin's `find { it.itag == itag }`. */
  function FirstWithItag<T>(xs: seq<T>, itagOf: T -> int, itag: int): (k: int)
    ensures k == -1 <==> forall i :: 0 <= i < |xs| ==> itagOf(xs[i]) != itag
    ensures k != -1 ==> 0 <= k < |xs| && itagOf(xs[k]) == itag
    ensures k != -1 ==> forall i :: 0 <= i < k ==> itagOf(xs[i]) != itag
  {
    if xs == [] then -1
    else if itagOf(xs[0]) == itag then 0
    else
      var k := FirstWithItag(xs[1..], itagOf, itag);
      if k == -1 then -1 else k + 1
  }

  function VideoItag(s: StreamInfo): int { s.itag }

  function AudioItag(a: AudioStreamInfo): int { a.itag }

  /** The URL of the first stream with `itag`, in the audio list or in the video list. */
  function LookupItag(info: VideoInfo, itag: int, isAudio: bool): Option<string>
  {
    if isAudio then
      var k := FirstWithItag(info.audioStreams, AudioItag, itag);
      if k == -1 then None else Some(info.audioStreams[k].url)
    else
      var k := FirstWithItag(info.streams, VideoItag, itag);
      if k == -1 then None else Some(info.streams[k].url)
  }

  /**
    * The refresher finds a URL exactly when the list it searches holds a
    * stream with the itag, and then it is the URL of the first such stream.
    */
  lemma LookupItagFinds(info: VideoInfo, itag: int, isAudio: bool)
    ensures isAudio ==>
      (LookupItag(info, itag, isAudio).Some? <==> exists i :: 0 <= i < |info.audioStreams| && info.audioStreams[i].itag == itag)
    ensures !isAudio ==>
      (LookupItag(info, itag, isAudio).Some? <==> exists i :: 0 <= i < |info.streams| && info.streams[i].itag == itag)
    ensures isAudio && LookupItag(info, itag, isAudio).Some? ==>
      exists i :: 0 <= i < |info.audioStreams| && info.audioStreams[i].itag == itag
        && info.audioStreams[i].url == LookupItag(info, itag, isAudio).value
        && forall j :: 0 <= j < i ==> info.audioStreams[j].itag != itag
    ensures !isAudio && LookupItag(info, itag, isAudio).Some? ==>
      exists i :: 0 <= i < |info.streams| && info.streams[i].itag == itag
        && info.streams[i].url == LookupItag(info, itag, isAudio).value
        && forall j :: 0 <= j < i ==> info.streams[j].itag != itag
  {
    if isAudio {
      var k := FirstWithItag(info.audioStreams, AudioItag, itag);
      if k == -1 {
        forall i | 0 <= i < |info.audioStreams| ensures info.audioStreams[i].itag != itag {
          assert AudioItag(info.audioStreams[i]) != itag;
        }
      } else {
        forall j | 0 <= j < k ensures info.audioStreams[j].itag != itag {
          assert AudioItag(info.audioStreams[j]) != itag;
        }
      }
    } else {
      var k := FirstWithItag(info.streams, VideoItag, itag);
      if k == -1 {
        forall i | 0 <= i < |info.streams| ensures info.streams[i].itag != itag {
          assert VideoItag(info.streams[i]) != itag;
        }
      } else {
        forall j | 0 <= j < k ensures info.streams[j].itag != itag {
          assert VideoItag(info.streams[j]) != itag;
        }
      }
    }
  }

  /** What a refresh yields from the player API's answer: the URL for the itag in the parsed catalogue. */
  function RefreshAnswer(world: World, response: Option<map<string, Json>>, itag: int, isAudio: bool): (r: Option<string>)
    ensures r.Some? ==>
      && response.Some? && world.parsePlayerResponse(response.value).Success?
      && r == LookupItag(world.parsePlayerResponse(response.value).value, itag, isAudio)
  {
    match ApiInfo(world, response)
    case Some(Success(info)) => LookupItag(info, itag, isAudio)
    case _ => None
  }

  /** The watch-page URL the refresher fetches a session from. */
  function WatchUrl(videoId: string): string
  {
    "https://www.youtube.com/watch?v=" + videoId
  }

  // ---------------------------------------------------------------------------
  // Validation
  // ---------------------------------------------------------------------------

  /** The selection holds every stream the format needs: audio for MP3, both for a mux, the video otherwise. */
  predicate HasNeededStreams(selected: SelectedStreams, format: OutputFormat)
  {
    if format == MP3 then selected.audio.Some?
    else if selected.requiresMuxing then selected.video.Some? && selected.audio.Some?
    else selected.video.Some?
  }

  /** The URLs `validateStreams` probes, in order. */
  function ProbedUrls(selected: SelectedStreams, format: OutputFormat): (r: seq<string>)
    requires HasNeededStreams(selected, format)
    ensures format == MP3 ==> r == [selected.audio.value.url]
    ensures format != MP3 && selected.requiresMuxing ==> r == [selected.video.value.url, selected.audio.value.url]
    ensures format != MP3 && !selected.requiresMuxing ==> r == [selected.video.value.url]
  {
    if format == MP3 then [selected.audio.value.url]
    else if selected.requiresMuxing then [selected.video.value.url, selected.audio.value.url]
    else [selected.video.value.url]
  }

  function ProbeCalls(urls: seq<string>): (r: seq<Call>)
    ensures |r| == |urls| && forall i :: 0 <= i < |urls| ==> r[i] == ProbeUrl(urls[i])
  {
    seq(|urls|, i requires 0 <= i < |urls| => ProbeUrl(urls[i]))
  }

  /** The `n` probes from position `k` on all succeeded. */
  predicate ProbesPassed(world: World, k: nat, n: nat)
  {
    forall j :: k <= j < k + n ==> world.probe(j)
  }

  /** The record ends with the probes of `selected`, and every one of them succeeded. */
  predicate ValidatedAt(world: World, calls: seq<Call>, selected: SelectedStreams, format: OutputFormat)
  {
    && HasNeededStreams(selected, format)
    && var urls := ProbedUrls(selected, format);
    && |urls| <= |calls|
    && calls[|calls| - |urls|..] == ProbeCalls(urls)
    && ProbesPassed(world, |calls| - |urls|, |urls|)
  }

  // ---------------------------------------------------------------------------
  // Base name and progress
  // ---------------------------------------------------------------------------

  /** A title that holds a link: "http" or "youtube.com", in any case. */
  predicate MentionsLink(title: string)
  {
    ContainsIgnoreCase(title, "http", 0) || ContainsIgnoreCase(title, "youtube.com", 0)
  }

  /** The file name stem: a title holding a link is replaced by the video id, then sanitized. */
  function BaseName(title: string, videoId: string, requestId: DownloadId): (r: string)
    ensures r != ""
    ensures r == "video_" + requestId.value || forall i :: 0 <= i < |r| ==> !IsInvalidChar(r[i])
  {
    var safeTitle := if MentionsLink(title) then "video_" + videoId else title;
    Sanitize(safeTitle, "video_" + requestId.value)
  }

  /** A title holding a link gives exactly `video_<id>` for a well-formed video id. */
  lemma LinkTitleUsesVideoId(title: string, videoId: string, requestId: DownloadId)
    requires MentionsLink(title) && IsVideoId(videoId)
    ensures BaseName(title, videoId, requestId) == "video_" + videoId
  {
    var s := "video_" + videoId;
    forall i | 0 <= i < |s| ensures !IsInvalidChar(s[i]) && !IsWhitespace(s[i]) {
      if i >= 6 {
        assert s[i] == videoId[i - 6];
        assert IsIdChar(videoId[i - 6]);
      }
    }
    assert ReplaceInvalid(s) == s;
    TrimOfTrimmed(s);
    assert !IsWhitespace(s[0]);
  }

  /** The `DownloadProgress` of one `onProgress` call: an ETA only with a positive speed and a known total. */
  function ProgressOf(p: ProgressPoint): (r: DownloadProgress)
    ensures r.downloadedBytes == p.downloaded && r.totalBytes == p.total && r.speedBytesPerSec == p.speed
    ensures r.etaSeconds.Some? <==> p.speed > 0 && p.total.Some?
    ensures r.etaSeconds.Some? && p.total.value >= p.downloaded ==>
      0 <= r.etaSeconds.value && r.etaSeconds.value * p.speed <= p.total.value - p.downloaded
  {
    DownloadProgress(p.downloaded, p.total, p.speed,
      if p.speed > 0 && p.total.Some? then Some(TruncDiv(p.total.value - p.downloaded, p.speed)) else None)
  }

  /** The `Progress` events of a transfer. */
  function ProgressEvents(id: DownloadId, points: seq<ProgressPoint>): (r: seq<DownloadEvent>)
    ensures |r| == |points| && forall i :: 0 <= i < |r| ==> r[i] == Progress(id, ProgressOf(points[i]))
  {
    seq(|points|, i requires 0 <= i < |points| => Progress(id, ProgressOf(points[i])))
  }

  /** The event for a failed transfer: `Cancelled` for a cancellation, `Failed` otherwise. */
  function TransferEnd(id: DownloadId, error: DownloadError): (e: DownloadEvent)
    ensures e.IsTerminal() && e.id == id
    ensures e.Cancelled? <==> error == CancelledError
    ensures e.Failed? ==> e.error == error
  {
    if error == CancelledError then Cancelled(id) else Failed(id, error)
  }

  /** `outputDir.resolve(name)` for a name without separators. */
  function Resolve(dir: string, name: string): string
  {
    if dir == "" then name else if dir[|dir| - 1] == '/' then dir + name else dir + "/" + name
  }

  // ---------------------------------------------------------------------------
  // Properties of a pipeline's events and calls
  // ---------------------------------------------------------------------------

  /** A call that only reads metadata or probes a stream: no transfer, conversion, mux or removal. */
  predicate IsMetadataCall(c: Call)
  {
    c.SessionFetch? || c.PlayerFetch? || c.PageFetch? || c.ProbeUrl?
  }

  /** Every call from position `from` on is a metadata call. */
  predicate MetadataOnly(calls: seq<Call>, from: nat)
  {
    from <= |calls| && forall i :: from <= i < |calls| ==> IsMetadataCall(calls[i])
  }

  /**
    * Every transfer made from position `from` on with only metadata calls
    * before it, that is the pipeline's first transfer, starts at `offset`.
    */
  predicate FirstTransferAt(calls: seq<Call>, from: nat, offset: int)
  {
    forall i :: from <= i < |calls| && calls[i].Transfer? && MetadataOnly(calls[..i], from) ==>
      calls[i].resumeBytes == offset
  }

  /** Every event is about `id`, and only the last may be terminal. */
  predicate EventsOf(id: DownloadId, events: seq<DownloadEvent>)
  {
    && (forall i :: 0 <= i < |events| ==> events[i].id == id)
    && (forall i :: 0 <= i < |events| - 1 ==> !events[i].IsTerminal())
  }

  /** The answer to the transfer recorded at position `k` succeeded. */
  predicate TransferSucceeded(world: World, calls: seq<Call>, k: nat)
  {
    k < |calls| && calls[k].Transfer? && world.transfer(k).outcome.Success?
  }

  /**
    * `Completed(path)` follows the calls the format requires, all
    * successful, with nothing after them: a transfer, its conversion and the
    * removal of the temporary file for MP3; a video transfer, an audio
    * transfer from offset 0, the mux and the removal of both temporary files
    * for a mux; a single transfer into `path` otherwise.
    */
  predicate CompletedAfter(world: World, calls: seq<Call>, format: OutputFormat, path: string)
  {
    var n := |calls|;
    if format == MP3 then
      && n >= 3 && TransferSucceeded(world, calls, n - 3)
      && calls[n - 2] == ConvertToMp3(calls[n - 3].outputPath, path) && world.convert(n - 2).Success?
      && calls[n - 1] == DeleteFile(calls[n - 3].outputPath)
    else if n >= 1 && calls[n - 1].DeleteFile? then
      && n >= 5 && TransferSucceeded(world, calls, n - 5) && TransferSucceeded(world, calls, n - 4)
      && !calls[n - 5].refresher.isAudio && calls[n - 4].refresher.isAudio && calls[n - 4].resumeBytes == 0
      && calls[n - 3] == MuxFiles(calls[n - 5].outputPath, calls[n - 4].outputPath, path) && world.mux(n - 3).Success?
      && calls[n - 2] == DeleteFile(calls[n - 5].outputPath) && calls[n - 1] == DeleteFile(calls[n - 4].outputPath)
    else
      n >= 1 && TransferSucceeded(world, calls, n - 1) && calls[n - 1].outputPath == path
  }

  /**
    * What the events of a pipeline whose calls start at position `from`
    * promise: they are about `id` and only the last may be terminal; a
    * completion follows the calls its format needs; when the last call is a
    * transfer that failed, the events end with `Cancelled` for a
    * cancellation and with `Failed` otherwise.
    */
  predicate PipelineEvents(world: World, id: DownloadId, format: OutputFormat, calls: seq<Call>, from: nat, events: seq<DownloadEvent>)
  {
    && from <= |calls|
    && EventsOf(id, events)
    && (events != [] && events[|events| - 1].Completed? ==>
          CompletedAfter(world, calls, format, events[|events| - 1].filePath))
    && (|calls| > from && calls[|calls| - 1].Transfer? && world.transfer(|calls| - 1).outcome.Failure? ==>
          events != [] && events[|events| - 1] == TransferEnd(id, world.transfer(|calls| - 1).outcome.error))
  }

  /**
    * Events that are not terminal, emitted while only metadata calls were
    * made, keep the promise of the events after them.
    */
  lemma PrefixedEvents(world: World, id: DownloadId, format: OutputFormat, calls: seq<Call>, prepared: seq<Call>,
                       from: nat, first: seq<DownloadEvent>, rest: seq<DownloadEvent>)
    requires MetadataOnly(prepared, from) && prepared <= calls
    requires forall i :: 0 <= i < |first| ==> first[i].id == id && !first[i].IsTerminal()
    requires PipelineEvents(world, id, format, calls, |prepared|, rest)
    requires rest == [] ==> calls == prepared
    ensures PipelineEvents(world, id, format, calls, from, first + rest)
  {
    var events := first + rest;
    if rest != [] {
      assert events[|events| - 1] == rest[|rest| - 1];
    } else if |calls| > from {
      assert IsMetadataCall(calls[|calls| - 1]);
    }
    forall i | 0 <= i < |events| ensures events[i].id == id {
      if i >= |first| {
        assert events[i] == rest[i - |first|];
      }
    }
    forall i | 0 <= i < |events| - 1 ensures !events[i].IsTerminal() {
      if i >= |first| {
        assert events[i] == rest[i - |first|];
      }
    }
  }

  /**
    * When the calls after `prepared` are either none or start with a
    * transfer from `offset`, and `prepared` made only metadata calls from
    * `from` on, the first transfer from `from` on starts at `offset`.
    */
  lemma FirstTransferAfter(calls: seq<Call>, prepared: seq<Call>, from: nat, offset: int)
    requires MetadataOnly(prepared, from) && prepared <= calls
    requires |calls| > |prepared| ==> calls[|prepared|].Transfer? && calls[|prepared|].resumeBytes == offset
    ensures FirstTransferAt(calls, from, offset)
  {
  }

  // ---------------------------------------------------------------------------
  // The engine
  // ---------------------------------------------------------------------------

  /** A running download: its events so far and its controller. */
  class Session {
    const id: DownloadId
    const controller: DownloadControl.DownloadController
    var events: seq<DownloadEvent>

    constructor(id: DownloadId, controller: DownloadControl.DownloadController, events: seq<DownloadEvent>)
      ensures this.id == id && this.controller == controller && this.events == events
    {
      this.id := id;
      this.controller := controller;
      this.events := events;
    }

    /** `pause()`: pause the controller, then emit `Paused`. */
    method Pause()
      modifies this, controller
      ensures controller.state == DownloadControl.Step(old(controller.state), DownloadControl.PauseOp)
      ensures events == old(events) + [Paused(id)]
    {
      controller.Pause();
      events := events + [Paused(id)];
    }

    /** `resume()`: resume the controller, then emit `Resumed`. */
    method Resume()
      modifies this, controller
      ensures controller.state == DownloadControl.Step(old(controller.state), DownloadControl.ResumeOp)
      ensures events == old(events) + [Resumed(id)]
    {
      controller.Resume();
      events := events + [Resumed(id)];
    }

    /** `cancel()`: cancel the controller, then emit a `Cancelled` of its own. */
    method Cancel()
      modifies this, controller
      ensures controller.state == DownloadControl.CANCELLED
      ensures events == old(events) + [Cancelled(id)]
    {
      controller.Cancel();
      events := events + [Cancelled(id)];
    }
  }

  class Engine {
    const world: World
    /** The session data reused across calls. */
    var cachedSession: Option<SessionData>
    /** Every call made on a collaborator so far. */
    var calls: seq<Call>

    constructor(world: World)
      ensures this.world == world && cachedSession.None? && calls == []
    {
      this.world := world;
      cachedSession := None;
      calls := [];
    }

    // --- One call on a collaborator each ---

    /** `innertubeClient.fetchSessionData(pageUrl)`. */
    method FetchSession(pageUrl: string) returns (s: Option<SessionData>)
      modifies this`calls
      ensures calls == old(calls) + [SessionFetch(pageUrl)]
      ensures s == world.sessions(|old(calls)|)
    {
      s := world.sessions(|calls|);
      calls := calls + [SessionFetch(pageUrl)];
    }

    /** `innertubeClient.fetchPlayerResponse(videoId, session)`. */
    method FetchPlayer(videoId: string, session: Option<SessionData>) returns (pr: Option<map<string, Json>>)
      modifies this`calls
      ensures calls == old(calls) + [PlayerFetch(videoId, session)]
      ensures pr == world.player(|old(calls)|)
    {
      pr := world.player(|calls|);
      calls := calls + [PlayerFetch(videoId, session)];
    }

    /** `pageClient.get(pageUrl).bodyAsText()`, `None` when it threw. */
    method FetchPage(pageUrl: string) returns (html: Option<string>)
      modifies this`calls
      ensures calls == old(calls) + [PageFetch(pageUrl)]
      ensures html == world.page(|old(calls)|)
    {
      html := world.page(|calls|);
      calls := calls + [PageFetch(pageUrl)];
    }

    /** `probeStreamUrl(url)`. */
    method Probe(url: string) returns (ok: bool)
      modifies this`calls
      ensures calls == old(calls) + [ProbeUrl(url)]
      ensures ok == world.probe(|old(calls)|)
    {
      ok := world.probe(|calls|);
      calls := calls + [ProbeUrl(url)];
    }

    /** `HttpDownloader(...).download(...)`: the progress it reported and its outcome. */
    method Download(url: string, outputPath: string, resumeBytes: int, refresher: Refresher) returns (t: Transferred)
      modifies this`calls
      ensures calls == old(calls) + [Transfer(url, outputPath, resumeBytes, refresher)]
      ensures t == world.transfer(|old(calls)|)
    {
      t := world.transfer(|calls|);
      calls := calls + [Transfer(url, outputPath, resumeBytes, refresher)];
    }

    /** `audioConverter.convertToMp3(input, output)`. */
    method Convert(input: string, output: string) returns (o: Outcome<()>)
      modifies this`calls
      ensures calls == old(calls) + [ConvertToMp3(input, output)]
      ensures o == world.convert(|old(calls)|)
    {
      o := world.convert(|calls|);
      calls := calls + [ConvertToMp3(input, output)];
    }

    /** `mediaMuxer.mux(video, audio, target)`. */
    method Mux(video: string, audio: string, target: string) returns (o: Outcome<()>)
      modifies this`calls
      ensures calls == old(calls) + [MuxFiles(video, audio, target)]
      ensures o == world.mux(|old(calls)|)
    {
      o := world.mux(|calls|);
      calls := calls + [MuxFiles(video, audio, target)];
    }

    /** `fileSystem.delete(path, mustExist = false)`. */
    method Delete(path: string)
      modifies this`calls
      ensures calls == old(calls) + [DeleteFile(path)]
    {
      calls := calls + [DeleteFile(path)];
    }

    // --- The engine's operations ---

    /** `fetchPlayerResponse` and, when it answered, `parseFromPlayerResponse`. */
    method AskPlayer(videoId: string, session: Option<SessionData>) returns (api: Option<Outcome<VideoInfo>>)
      modifies this`calls
      ensures calls == old(calls) + [PlayerFetch(videoId, session)]
      ensures api == ApiInfo(world, world.player(|old(calls)|))
    {
      var response := FetchPlayer(videoId, session);
      if response.None? {
        return None;
      }
      api := Some(world.parsePlayerResponse(response.value));
    }

    /** The watch-page fallback of `fetchVideoInfo`: fetch the page and parse it, keeping only a catalogue with a video stream. */
    method ReadPage(url: string) returns (r: Outcome<VideoInfo>)
      modifies this`calls
      ensures calls == old(calls) + [PageFetch(url)]
      ensures r == PageInfo(world, world.page(|old(calls)|))
    {
      var html := FetchPage(url);
      if html.None? {
        return Failure(VideoUnavailable);
      }
      match world.parseVideoInfo(html.value)
      case Raised =>
        r := Failure(NetworkFailure(world.thrown));
      case Returned(direct) =>
        r := if direct.Success? && direct.value.streams != [] then direct else Failure(VideoUnavailable);
    }

    /**
      * `fetchVideoInfo`: no id gives `VideoUnavailable` without any call;
      * otherwise a session is fetched (and cached when there is one), the
      * player API is asked, and its catalogue is kept when it has a video
      * stream; only otherwise is the watch page fetched and parsed.
      */
    method FetchVideoInfo(url: string) returns (r: Outcome<VideoInfo>)
      modifies this`cachedSession, this`calls
      ensures r.Success? ==> r.value.streams != []
      ensures r.Failure? ==> r.error == VideoUnavailable || r.error.NetworkFailure?
      ensures MetadataOnly(calls, |old(calls)|) && old(calls) <= calls
      ensures FirstCapture(url, Patterns).None? ==>
        r == Failure(VideoUnavailable) && calls == old(calls) && cachedSession == old(cachedSession)
      ensures FirstCapture(url, Patterns).Some? ==>
        var k := |old(calls)|;
        var session := world.sessions(k);
        var api := ApiInfo(world, world.player(k + 1));
        var asked := old(calls) + [SessionFetch(url), PlayerFetch(FirstCapture(url, Patterns).value, session)];
        && cachedSession == (if session.Some? then session else old(cachedSession))
        && (api.Some? && Usable(api.value) ==> calls == asked && r == api.value)
        && (!(api.Some? && Usable(api.value)) ==>
              calls == asked + [PageFetch(url)] && r == PageInfo(world, world.page(k + 2)))
    {
      var videoId := ExtractVideoId(url);
      if videoId.None? {
        return Failure(VideoUnavailable);
      }
      var session := FetchSession(url);
      if session.Some? {
        cachedSession := session;
      }
      var api := AskPlayer(videoId.value, session);
      if api.Some? && Usable(api.value) {
        return api.value;
      }
      r := ReadPage(url);
    }

    /**
      * The URL refresher of `createUrlRefresher`: the cached session, else
      * one fetched from the watch page (and cached); with a session, the
      * player API's catalogue is searched for the itag.  Any failure gives
      * `None`.
      */
    method RefreshUrl(refresher: Refresher) returns (url: Option<string>)
      modifies this`cachedSession, this`calls
      ensures old(cachedSession).Some? ==>
        && cachedSession == old(cachedSession)
        && calls == old(calls) + [PlayerFetch(refresher.videoId, cachedSession)]
      ensures old(cachedSession).None? ==>
        && cachedSession == world.sessions(|old(calls)|)
        && calls == old(calls) + [SessionFetch(WatchUrl(refresher.videoId))]
             + (if cachedSession.Some? then [PlayerFetch(refresher.videoId, cachedSession)] else [])
      ensures cachedSession.None? ==> url.None?
      ensures cachedSession.Some? ==> url == RefreshAnswer(world, world.player(|calls| - 1), refresher.itag, refresher.isAudio)
    {
      var session := cachedSession;
      if session.None? {
        session := FetchSession(WatchUrl(refresher.videoId));
        cachedSession := session;
      }
      if session.None? {
        return None;
      }
      var api := AskPlayer(refresher.videoId, session);
      if api.None? || api.value.Failure? {
        return None;
      }
      url := LookupItag(api.value.value, refresher.itag, refresher.isAudio);
    }

    /**
      * `validateStreams`: a missing needed stream gives `FormatNotAvailable`
      * without a probe; otherwise every needed stream is probed (both for a
      * mux) and any failed probe gives `Throttled`.
      */
    method ValidateStreams(selected: SelectedStreams, format: OutputFormat) returns (error: Option<DownloadError>)
      modifies this`calls
      ensures MetadataOnly(calls, |old(calls)|) && old(calls) <= calls
      ensures !HasNeededStreams(selected, format) ==> error == Some(FormatNotAvailable) && calls == old(calls)
      ensures HasNeededStreams(selected, format) ==>
        && calls == old(calls) + ProbeCalls(ProbedUrls(selected, format))
        && (error.None? <==> ProbesPassed(world, |old(calls)|, |ProbedUrls(selected, format)|))
        && (error.Some? ==> error == Some(Throttled))
    {
      if format == MP3 {
        if selected.audio.None? {
          return Some(FormatNotAvailable);
        }
        var ok := Probe(selected.audio.value.url);
        error := if !ok then Some(Throttled) else None;
      } else if selected.requiresMuxing {
        if selected.video.None? {
          return Some(FormatNotAvailable);
        }
        if selected.audio.None? {
          return Some(FormatNotAvailable);
        }
        var videoOk := Probe(selected.video.value.url);
        var audioOk := Probe(selected.audio.value.url);
        error := if !videoOk || !audioOk then Some(Throttled) else None;
        assert ProbeCalls(ProbedUrls(selected, format)) == [ProbeUrl(selected.video.value.url), ProbeUrl(selected.audio.value.url)];
      } else {
        if selected.video.None? {
          return Some(FormatNotAvailable);
        }
        var ok := Probe(selected.video.value.url);
        error := if !ok then Some(Throttled) else None;
      }
    }

    /**
      * The retry after a failed validation: a fresh session (cached), the
      * player API, a catalogue with a video stream, a selection, and a
      * validation.  Only a selection that validates is returned.
      */
    method RetryValidation(request: DownloadRequest, videoId: string) returns (renewed: Option<(VideoInfo, SelectedStreams)>)
      modifies this`cachedSession, this`calls
      ensures MetadataOnly(calls, |old(calls)|) && old(calls) <= calls
      ensures |old(calls)| < |calls| && calls[|old(calls)|] == SessionFetch(request.url)
      ensures renewed.Some? ==>
        && renewed.value.0.streams != []
        && world.select(renewed.value.0, request.qualityPreference, request.outputFormat) == Some(renewed.value.1)
        && ValidatedAt(world, calls, renewed.value.1, request.outputFormat)
    {
      var session := FetchSession(request.url);
      if session.None? {
        return None;
      }
      cachedSession := session;
      var response := FetchPlayer(videoId, session);
      if response.None? {
        return None;
      }
      var result := world.parsePlayerResponse(response.value);
      if result.Failure? || result.value.streams == [] {
        return None;
      }
      var selected := world.select(result.value, request.qualityPreference, request.outputFormat);
      if selected.None? {
        return None;
      }
      var error := ValidateStreams(selected.value, request.outputFormat);
      if error.Some? {
        return None;
      }
      assert calls[|calls| - |ProbedUrls(selected.value, request.outputFormat)|..] == ProbeCalls(ProbedUrls(selected.value, request.outputFormat));
      renewed := Some((result.value, selected.value));
    }

    /**
      * Everything before the transfers: the catalogue, the selection and
      * its validation, retried once with a fresh session.  It returns the
      * first fetch and selection too.  A validated fresh selection replaces
      * the first one; otherwise the first validation's error stands.
      */
    method Prepare(request: DownloadRequest)
      returns (failure: Option<DownloadError>, info: VideoInfo, selected: SelectedStreams,
               fetched: Outcome<VideoInfo>, firstChoice: Option<SelectedStreams>, firstError: Option<DownloadError>, retried: bool)
      modifies this`cachedSession, this`calls
      ensures MetadataOnly(calls, |old(calls)|) && old(calls) <= calls
      ensures fetched.Failure? ==> failure == Some(fetched.error) && !retried
      ensures fetched.Success? ==> firstChoice == world.select(fetched.value, request.qualityPreference, request.outputFormat)
      ensures fetched.Success? && firstChoice.None? ==> failure == Some(FormatNotAvailable) && !retried
      ensures retried <==> fetched.Success? && firstChoice.Some? && firstError.Some?
      ensures firstError.Some? ==> firstError == Some(FormatNotAvailable) || firstError == Some(Throttled)
      ensures fetched.Success? && firstChoice.Some? && firstError.None? ==>
        failure.None? && info == fetched.value && selected == firstChoice.value
      ensures retried ==> failure.None? || failure == firstError
      ensures failure.None? ==>
        && info.streams != []
        && world.select(info, request.qualityPreference, request.outputFormat) == Some(selected)
        && ValidatedAt(world, calls, selected, request.outputFormat)
      ensures failure.Some? ==> failure.value in {VideoUnavailable, FormatNotAvailable, Throttled} || failure.value.NetworkFailure?
    {
      retried, firstChoice, firstError := false, None, None;
      info, selected := VideoInfo(VideoId(""), "", "", 0, [], [], None), SelectedStreams(None, None, false);
      fetched := FetchVideoInfo(request.url);
      if fetched.Failure? {
        return Some(fetched.error), info, selected, fetched, firstChoice, firstError, retried;
      }
      info := fetched.value;
      var videoId := info.id.value;
      firstChoice := world.select(info, request.qualityPreference, request.outputFormat);
      if firstChoice.None? {
        return Some(FormatNotAvailable), info, selected, fetched, firstChoice, firstError, retried;
      }
      selected := firstChoice.value;
      firstError := ValidateStreams(selected, request.outputFormat);
      if firstError.None? {
        assert calls[|calls| - |ProbedUrls(selected, request.outputFormat)|..] == ProbeCalls(ProbedUrls(selected, request.outputFormat));
        return None, info, selected, fetched, firstChoice, firstError, retried;
      }
      retried := true;
      var retry := RetryValidation(request, videoId);
      if retry.Some? {
        info, selected := retry.value.0, retry.value.1;
        failure := None;
      } else {
        failure := firstError;
      }
    }

    /** The MP3 branch: the audio into a temporary file, its conversion, and the removal of the temporary file. */
    method TransferMp3(request: DownloadRequest, baseName: string, resumeBytes: int, selected: SelectedStreams, videoId: string)
      returns (events: seq<DownloadEvent>)
      modifies this`calls
      ensures old(calls) <= calls
      ensures EventsOf(request.id, events) && events != [] && events[|events| - 1].IsTerminal()
      ensures selected.audio.None? ==> events == [Failed(request.id, FormatNotAvailable)] && calls == old(calls)
      ensures selected.audio.Some? ==>
        var k := |old(calls)|;
        var tmp := Resolve(request.outputDirectory, baseName + "_audio.tmp");
        var mp3 := Resolve(request.outputDirectory, baseName + ".mp3");
        var t := world.transfer(k);
        var audio := selected.audio.value;
        && |calls| > k && calls[k] == Transfer(audio.url, tmp, resumeBytes, Refresher(videoId, audio.itag, true))
        && (t.outcome.Failure? ==> |calls| == k + 1 && events == ProgressEvents(request.id, t.points) + [TransferEnd(request.id, t.outcome.error)])
        && (t.outcome.Success? ==> |calls| >= k + 2 && calls[k + 1] == ConvertToMp3(tmp, mp3))
        && (t.outcome.Success? && world.convert(k + 1).Failure? ==>
              |calls| == k + 2 && events == ProgressEvents(request.id, t.points) + [Failed(request.id, world.convert(k + 1).error)])
        && (t.outcome.Success? && world.convert(k + 1).Success? ==>
              calls == old(calls) + [calls[k], ConvertToMp3(tmp, mp3), DeleteFile(tmp)]
              && events == ProgressEvents(request.id, t.points) + [Completed(request.id, mp3)])
    {
      if selected.audio.None? {
        return [Failed(request.id, FormatNotAvailable)];
      }
      var audio := selected.audio.value;
      var tmp := Resolve(request.outputDirectory, baseName + "_audio.tmp");
      var mp3 := Resolve(request.outputDirectory, baseName + ".mp3");
      var t := Download(audio.url, tmp, resumeBytes, Refresher(videoId, audio.itag, true));
      events := ProgressEvents(request.id, t.points);
      if t.outcome.Failure? {
        events := events + [TransferEnd(request.id, t.outcome.error)];
        return;
      }
      var conversion := Convert(tmp, mp3);
      if conversion.Failure? {
        events := events + [Failed(request.id, conversion.error)];
        return;
      }
      Delete(tmp);
      events := events + [Completed(request.id, mp3)];
    }

    /**
      * The mux branch: the video, then the audio from offset 0, then the mux
      * and the removal of both temporary files.  A missing stream ends the
      * pipeline without an event.
      */
    method TransferMuxed(request: DownloadRequest, baseName: string, resumeBytes: int, selected: SelectedStreams, videoId: string)
      returns (events: seq<DownloadEvent>)
      modifies this`calls
      ensures old(calls) <= calls
      ensures EventsOf(request.id, events)
      ensures selected.video.None? || selected.audio.None? ==> events == [] && calls == old(calls)
      ensures selected.video.Some? && selected.audio.Some? ==>
        var k := |old(calls)|;
        var videoPath := Resolve(request.outputDirectory, baseName + "_video.tmp");
        var audioPath := Resolve(request.outputDirectory, baseName + "_audio.tmp");
        var target := Resolve(request.outputDirectory, baseName + "." + request.outputFormat.Extension());
        var v := world.transfer(k);
        var a := world.transfer(k + 1);
        var video := selected.video.value;
        var audio := selected.audio.value;
        && events != [] && events[|events| - 1].IsTerminal()
        && |calls| > k && calls[k] == Transfer(video.url, videoPath, resumeBytes, Refresher(videoId, video.itag, false))
        && (v.outcome.Failure? ==> |calls| == k + 1 && events == ProgressEvents(request.id, v.points) + [TransferEnd(request.id, v.outcome.error)])
        && (v.outcome.Success? ==>
              && |calls| > k + 1 && calls[k + 1] == Transfer(audio.url, audioPath, 0, Refresher(videoId, audio.itag, true))
              && (a.outcome.Failure? ==>
                    |calls| == k + 2
                    && events == ProgressEvents(request.id, v.points) + ProgressEvents(request.id, a.points) + [TransferEnd(request.id, a.outcome.error)])
              && (a.outcome.Success? ==>
                    && |calls| > k + 2 && calls[k + 2] == MuxFiles(videoPath, audioPath, target)
                    && (world.mux(k + 2).Failure? ==>
                          |calls| == k + 3
                          && events == ProgressEvents(request.id, v.points) + ProgressEvents(request.id, a.points)
                                       + [Failed(request.id, world.mux(k + 2).error)])
                    && (world.mux(k + 2).Success? ==>
                          calls == old(calls) + [calls[k], calls[k + 1], MuxFiles(videoPath, audioPath, target),
                                                 DeleteFile(videoPath), DeleteFile(audioPath)]
                          && events == ProgressEvents(request.id, v.points) + ProgressEvents(request.id, a.points)
                                       + [Completed(request.id, target)])))
    {
      if selected.video.None? || selected.audio.None? {
        return [];
      }
      var video := selected.video.value;
      var audio := selected.audio.value;
      var videoPath := Resolve(request.outputDirectory, baseName + "_video.tmp");
      var audioPath := Resolve(request.outputDirectory, baseName + "_audio.tmp");
      var target := Resolve(request.outputDirectory, baseName + "." + request.outputFormat.Extension());
      var v := Download(video.url, videoPath, resumeBytes, Refresher(videoId, video.itag, false));
      events := ProgressEvents(request.id, v.points);
      if v.outcome.Failure? {
        events := events + [TransferEnd(request.id, v.outcome.error)];
        return;
      }
      var a := Download(audio.url, audioPath, 0, Refresher(videoId, audio.itag, true));
      events := events + ProgressEvents(request.id, a.points);
      if a.outcome.Failure? {
        events := events + [TransferEnd(request.id, a.outcome.error)];
        return;
      }
      var muxed := Mux(videoPath, audioPath, target);
      if muxed.Failure? {
        events := events + [Failed(request.id, muxed.error)];
        return;
      }
      Delete(videoPath);
      Delete(audioPath);
      events := events + [Completed(request.id, target)];
    }

    /** The progressive branch: one transfer straight into the target file.  A missing video ends without an event. */
    method TransferProgressive(request: DownloadRequest, baseName: string, resumeBytes: int, selected: SelectedStreams, videoId: string)
      returns (events: seq<DownloadEvent>)
      modifies this`calls
      ensures old(calls) <= calls
      ensures EventsOf(request.id, events)
      ensures selected.video.None? ==> events == [] && calls == old(calls)
      ensures selected.video.Some? ==>
        var k := |old(calls)|;
        var target := Resolve(request.outputDirectory, baseName + "." + request.outputFormat.Extension());
        var t := world.transfer(k);
        var video := selected.video.value;
        && calls == old(calls) + [Transfer(video.url, target, resumeBytes, Refresher(videoId, video.itag, false))]
        && events == ProgressEvents(request.id, t.points)
                     + [if t.outcome.Failure? then TransferEnd(request.id, t.outcome.error) else Completed(request.id, target)]
    {
      if selected.video.None? {
        return [];
      }
      var video := selected.video.value;
      var target := Resolve(request.outputDirectory, baseName + "." + request.outputFormat.Extension());
      var t := Download(video.url, target, resumeBytes, Refresher(videoId, video.itag, false));
      events := ProgressEvents(request.id, t.points);
      if t.outcome.Failure? {
        events := events + [TransferEnd(request.id, t.outcome.error)];
        return;
      }
      events := events + [Completed(request.id, target)];
    }

    /**
      * The branch of the output format, after the preparation.  Its events
      * are about the request and only the last may be terminal; none at all
      * means a silent end with no call; a completion follows the calls its
      * format needs; a transfer that fails ends the events with `Cancelled`
      * for a cancellation and with `Failed` otherwise.
      */
    method Deliver(request: DownloadRequest, baseName: string, resumeBytes: int, selected: SelectedStreams, videoId: string)
      returns (events: seq<DownloadEvent>)
      modifies this`calls
      ensures old(calls) <= calls
      ensures PipelineEvents(world, request.id, request.outputFormat, calls, |old(calls)|, events)
      ensures events == [] ==> calls == old(calls)
      ensures events != [] ==> events[|events| - 1].IsTerminal()
      ensures |calls| > |old(calls)| ==>
        calls[|old(calls)|].Transfer? && calls[|old(calls)|].resumeBytes == resumeBytes
    {
      if request.outputFormat == MP3 {
        events := TransferMp3(request, baseName, resumeBytes, selected, videoId);
      } else if selected.requiresMuxing {
        events := TransferMuxed(request, baseName, resumeBytes, selected, videoId);
      } else {
        events := TransferProgressive(request, baseName, resumeBytes, selected, videoId);
      }
    }

    /**
      * The body `startDownload` launches: `Queued` and `Started`, then the
      * preparation (any failure is a `Failed` and the end, after metadata
      * calls only), then the branch of the output format, whose first
      * transfer starts at `resumeBytes`.
      */
    method RunPipeline(request: DownloadRequest, resumeBytes: int)
      returns (events: seq<DownloadEvent>, failure: Option<DownloadError>)
      modifies this`cachedSession, this`calls
      ensures old(calls) <= calls
      ensures |events| >= 2 && events[0] == Queued(request.id) && events[1] == Started(request.id)
      ensures PipelineEvents(world, request.id, request.outputFormat, calls, |old(calls)|, events)
      ensures failure.Some? ==>
        && events == [Queued(request.id), Started(request.id), Failed(request.id, failure.value)]
        && MetadataOnly(calls, |old(calls)|)
        && (failure.value in {VideoUnavailable, FormatNotAvailable, Throttled} || failure.value.NetworkFailure?)
      ensures FirstTransferAt(calls, |old(calls)|, resumeBytes)
    {
      var start := [Queued(request.id), Started(request.id)];
      var f, info, selected, _, _, _, _ := Prepare(request);
      failure := f;
      var prepared := calls;
      var rest;
      if failure.Some? {
        rest := [Failed(request.id, failure.value)];
      } else {
        var videoId := info.id.value;
        var baseName := BaseName(info.title, videoId, request.id);
        rest := Deliver(request, baseName, resumeBytes, selected, videoId);
      }
      FirstTransferAfter(calls, prepared, |old(calls)|, resumeBytes);
      PrefixedEvents(world, request.id, request.outputFormat, calls, prepared, |old(calls)|, start, rest);
      events := start + rest;
    }

    /** `startDownload`: a fresh controller, and the session holding the pipeline's events; the resume offset is the saved one, else 0. */
    method StartDownload(request: DownloadRequest, resumeState: Option<DownloadState>)
      returns (session: Session, ghost failure: Option<DownloadError>)
      modifies this`cachedSession, this`calls
      ensures fresh(session) && fresh(session.controller) && session.id == request.id
      ensures session.controller.state == DownloadControl.RUNNING
      ensures |session.events| >= 2 && session.events[0] == Queued(request.id) && session.events[1] == Started(request.id)
      ensures PipelineEvents(world, request.id, request.outputFormat, calls, |old(calls)|, session.events)
      ensures failure.Some? ==>
        && session.events == [Queued(request.id), Started(request.id), Failed(request.id, failure.value)]
        && MetadataOnly(calls, |old(calls)|)
      ensures FirstTransferAt(calls, |old(calls)|, if resumeState.Some? then resumeState.value.downloadedBytes else 0)
    {
      var controller := new DownloadControl.DownloadController();
      var resumeBytes := if resumeState.Some? then resumeState.value.downloadedBytes else 0;
      var events, f := RunPipeline(request, resumeBytes);
      failure := f;
      session := new Session(request.id, controller, events);
    }
  }
}
