# YouTube downloader core, modelled in Dafny

This project models the decision logic of a Kotlin multiplatform YouTube
downloader (desktop, Android and a command line front end), and proves
properties of that model. It covers these parts:

- **Stream selection** (`stream_selector.dfy`). The quality bands, the
  highest-bitrate audio choice, and the rule for choosing between a
  progressive stream and a video-only stream that must be muxed.
- **Chunk transports** (`chunk_transport.dfy`). The desktop curl
  transport and the Android `HttpURLConnection` transport: range URLs, byte
  counting, the total size and the status read from response headers.
- **Resumable chunk loop** (`http_downloader.dfy`, with its properties in
  `http_downloader_facts.dfy`). The loop runs over byte ranges, refreshes
  the URL proactively and after a 403, records the validators and the total
  from the first chunk, and has three exits. The loop is an imperative
  method. Every call it makes is logged, and the loop variables are a fold
  (`Replay`) over that log.
- **Transfer control** (`download_controller.dfy`). The RUNNING / PAUSED /
  CANCELLED controller, as a class.
- **Metadata parsing** (`page_parser.dfy`). Brace matching, percent
  decoding, signature-cipher URLs, and sorting format entries into video
  and audio streams. JSON is a small datatype; parsing JSON text is not
  modelled.
- **Innertube client** (`innertube.dfy`). Video-id extraction, visitor
  data, the session cookie header, and the checks a player response must
  pass.
- **Playlists** (`playlist_parser.dfy`, `playlist_repository.dfy`). The
  three regex passes over a playlist page with first-seen de-duplication,
  the playlist id in a URL, and the order of the browse API and the page
  fallback.
- **Ktor engine** (`engine.dfy`). The order of fetching video info, URL
  refresh, stream validation with one retry on a fresh session, the base
  file name, and the download pipeline with the events it emits for MP3,
  muxed and progressive output.
- **Download repository** (`download_repository.dfy`). The task list, the
  resume-state store, and forwarding events up to the first terminal one.
- **Utilities**. The rate limiter, the progress (speed) sampler, the file
  name sanitizer, and the CLI argument parser with its playlist limit and
  percent display.

Shared definitions live in `wrappers.dfy` (Option), `text.dfy` (the Kotlin
string functions the source relies on, such as `trim`, `indexOf`,
`toIntOrNull`, `split` and truncating `Long` division) and `domain.dfy` (the
domain model: videos, streams, requests, events, errors and outcomes).

Network, process and file-system calls are parameters of the model. The
playlist repository takes a function from request to reply. The engine
takes a `World` that answers the k-th recorded call. The downloader takes
an `Env` that gives the transport reply, the refresher answer, the chunk
jitter and the cancellation flag for each call index.

## Model

Source paths are relative to the repository root.

| member | source | states |
|---|---|---|
| FileNameSanitizer.ReplaceInvalid | shared/downloader-engine/src/commonMain/kotlin/com/ytdownloader/engine/util/FileNameSanitizer.kt:4-7 | Each invalid character `\ / : * ? " < > \|` becomes exactly one `_`. Every other character stays in place, and no invalid character is left. |
| FileNameSanitizer.Sanitize | shared/downloader-engine/src/commonMain/kotlin/com/ytdownloader/engine/util/FileNameSanitizer.kt:6-9 | A blank cleaned title gives the fallback. Otherwise the result is non-empty, has no invalid character and no whitespace at either end. |
| FileNameSanitizer.SanitizeKeepsOrder | shared/downloader-engine/src/commonMain/kotlin/com/ytdownloader/engine/util/FileNameSanitizer.kt:7 | The result is the title with invalid characters replaced, in order. Only whitespace is trimmed from the two ends. |
| FileNameSanitizer.SanitizeIdempotent | shared/downloader-engine/src/commonMain/kotlin/com/ytdownloader/engine/util/FileNameSanitizer.kt:6-9 | Sanitizing a non-fallback result again returns it unchanged, whatever the second fallback. |
| Progress.Speed | shared/downloader-engine/src/commonMain/kotlin/com/ytdownloader/engine/util/ProgressCalculator.kt:14-15 | The speed is non-negative. It is 0 when no bytes were gained, and otherwise it is the whole bytes-per-second quotient of the gain over the elapsed time. |
| Progress.ProgressCalculator.constructor | shared/downloader-engine/src/commonMain/kotlin/com/ytdownloader/engine/util/ProgressCalculator.kt:7-9 | A new sampler starts with `lastBytes == 0`, marked at the current time. |
| Progress.ProgressCalculator.Update | shared/downloader-engine/src/commonMain/kotlin/com/ytdownloader/engine/util/ProgressCalculator.kt:11-22 | Under 500 ms since the mark: returns 0 and changes nothing. Otherwise: returns the windowed speed (0 when `downloaded <= lastBytes`), stores `downloaded` and resets the mark. |
| Throttling.RateLimiter.constructor | shared/downloader-engine/src/commonMain/kotlin/com/ytdownloader/engine/util/RateLimiter.kt:7-9 | The budget starts full at `bytesPerSecond`, and the invariant `0 <= available <= bytesPerSecond` holds. |
| Throttling.RateLimiter.Throttle | shared/downloader-engine/src/commonMain/kotlin/com/ytdownloader/engine/util/RateLimiter.kt:11-25 | The budget refills when at least 1 s has passed. A request within the budget is deducted exactly, with no wait. A larger request waits at least 1 ms, then refills and resets the mark. The budget invariant is kept. |
| Throttling.RateLimiter.WaitFor | shared/downloader-engine/src/commonMain/kotlin/com/ytdownloader/engine/util/RateLimiter.kt:18-19 | A missing budget causes a wait of at least 1 ms. |
| DownloadControl.Step | shared/downloader-engine/src/commonMain/kotlin/com/ytdownloader/engine/download/DownloadController.kt:15-29 | `cancel` always gives CANCELLED, and CANCELLED stays CANCELLED. Otherwise `pause` gives PAUSED and `resume` gives RUNNING. |
| DownloadControl.RunAppend | shared/downloader-engine/src/commonMain/kotlin/com/ytdownloader/engine/download/DownloadController.kt:15-29 | Running a sequence of operations and then one more is one more step of the machine. |
| DownloadControl.CancelledIsAbsorbing | shared/downloader-engine/src/commonMain/kotlin/com/ytdownloader/engine/download/DownloadController.kt:15-29 | No sequence of operations leaves CANCELLED. |
| DownloadControl.CancelledIff | shared/downloader-engine/src/commonMain/kotlin/com/ytdownloader/engine/download/DownloadController.kt:15-29 | A run ends in CANCELLED exactly when it started there or contained a `cancel`. |
| DownloadControl.DownloadController.constructor | shared/downloader-engine/src/commonMain/kotlin/com/ytdownloader/engine/download/DownloadController.kt:13 | The controller starts RUNNING. |
| DownloadControl.DownloadController.Pause | shared/downloader-engine/src/commonMain/kotlin/com/ytdownloader/engine/download/DownloadController.kt:15-19 | The state becomes PAUSED unless it was CANCELLED, which is kept. |
| DownloadControl.DownloadController.Resume | shared/downloader-engine/src/commonMain/kotlin/com/ytdownloader/engine/download/DownloadController.kt:21-25 | The state becomes RUNNING unless it was CANCELLED, which is kept. |
| DownloadControl.DownloadController.Cancel | shared/downloader-engine/src/commonMain/kotlin/com/ytdownloader/engine/download/DownloadController.kt:27-29 | The state becomes CANCELLED. |
| DownloadControl.DownloadController.IsCancelled | shared/downloader-engine/src/commonMain/kotlin/com/ytdownloader/engine/download/DownloadController.kt:37 | True exactly when the state is CANCELLED. |
| DownloadControl.DownloadController.Apply | shared/downloader-engine/src/commonMain/kotlin/com/ytdownloader/engine/download/DownloadController.kt:15-29 | An operation from another coroutine moves the state by one step of the machine. |
| DownloadControl.DownloadController.AwaitIfPaused | shared/downloader-engine/src/commonMain/kotlin/com/ytdownloader/engine/download/DownloadController.kt:31-35 | Returns at once unless PAUSED. Otherwise it consumes other coroutines' operations and is released exactly when the state leaves PAUSED. Every earlier prefix left the state PAUSED. |
| StreamSelector.ArgMax | shared/downloader-engine/src/commonMain/kotlin/com/ytdownloader/engine/stream/StreamSelector.kt:9 | The index of the first element with the greatest key (`maxByOrNull`), or -1 for an empty list. |
| StreamSelector.MaxBy | shared/downloader-engine/src/commonMain/kotlin/com/ytdownloader/engine/stream/StreamSelector.kt:9 | `maxByOrNull`: None exactly for an empty list. Otherwise the first element with the greatest key. |
| StreamSelector.Filter | shared/downloader-engine/src/commonMain/kotlin/com/ytdownloader/engine/stream/StreamSelector.kt:13 | Keeps exactly the elements that satisfy the predicate. |
| StreamSelector.Select | shared/downloader-engine/src/commonMain/kotlin/com/ytdownloader/engine/stream/StreamSelector.kt:6-48 | Every chosen stream is drawn from the input lists. When muxing is needed, the video has no audio and the audio is the highest-bitrate audio stream. |
| StreamSelector.TallestMatchingIsTallest | shared/downloader-engine/src/commonMain/kotlin/com/ytdownloader/engine/stream/StreamSelector.kt:14-16 | Sorting by height and taking the first in-band stream gives an in-band stream at least as tall as every in-band stream. It is None exactly when no stream is in band. |
| StreamSelector.BandTable | shared/downloader-engine/src/commonMain/kotlin/com/ytdownloader/engine/stream/StreamSelector.kt:50-58 | BEST matches any height. HD_1080 matches >= 1080, HD_720 matches 720..1079, SD_480 matches 480..719 and SD_360 matches 360..479. Every height >= 360 is in exactly one fixed band. |
| StreamSelector.SelectMp3 | shared/downloader-engine/src/commonMain/kotlin/com/ytdownloader/engine/stream/StreamSelector.kt:8-11 | MP3 gives None exactly when there is no audio stream. Otherwise it gives no video, no muxing, and an audio stream of maximal bitrate taken from the input. |
| StreamSelector.VideoOnlyCandidate | shared/downloader-engine/src/commonMain/kotlin/com/ytdownloader/engine/stream/StreamSelector.kt:60-65 | The video-only candidate exists iff some stream lacks audio. It is the tallest in-band no-audio stream if there is one, else the tallest no-audio stream. |
| StreamSelector.VideoOnlyPreferredWhenTaller | shared/downloader-engine/src/commonMain/kotlin/com/ytdownloader/engine/stream/StreamSelector.kt:23-33 | When the video-only candidate is strictly taller than the progressive band match (0 if none), the result is that candidate muxed with the best audio. With no audio stream the result is None. |
| StreamSelector.ProgressiveUnlessTaller | shared/downloader-engine/src/commonMain/kotlin/com/ytdownloader/engine/stream/StreamSelector.kt:23-45 | When the video-only candidate is not strictly taller, a progressive stream exists and is chosen alone (the band match, else the tallest progressive stream). Only with no progressive stream at all does the video-only candidate fall back to a mux with the best audio, and without a candidate or audio the result is None. |
| StreamSelector.NoAudioNoMux | shared/downloader-engine/src/commonMain/kotlin/com/ytdownloader/engine/stream/StreamSelector.kt:31 | If the video-only candidate wins but there are no audio streams, selection fails even when a progressive stream exists. |
| StreamSelector.ProgressiveSelection | shared/downloader-engine/src/commonMain/kotlin/com/ytdownloader/engine/stream/StreamSelector.kt:35-40 | A non-muxed MP4/WEBM result is a progressive stream with audio: the band match, else the tallest progressive stream. Its audio is None. |
| StreamSelector.Example720pVersus1080p | shared/downloader-engine/src/commonMain/kotlin/com/ytdownloader/engine/stream/StreamSelector.kt:23-33 | For HD_720, a 1080p video-only stream beats a 720p progressive one and is muxed with the audio. |
| ChunkTransport.RangeUrlRoundTrip | shared/downloader-engine/src/desktopMain/kotlin/com/ytdownloader/engine/download/PlatformChunkDownloader.desktop.kt:38-42 | With `endByte >= 0`, the request URL is the original URL, then `&range=`, then the two bounds, which split back out. |
| ChunkTransport.RangeUrlOpenEnded | shared/downloader-engine/src/androidMain/kotlin/com/ytdownloader/engine/download/PlatformChunkDownloader.android.kt:36-40 | With a negative `endByte`, the URL is unchanged. |
| ChunkTransport.CopyBody | shared/downloader-engine/src/desktopMain/kotlin/com/ytdownloader/engine/download/PlatformChunkDownloader.desktop.kt:63-72 | The read loop reports every read count, in order, and the bytes written equal their sum. |
| ChunkTransport.HeaderValue | shared/downloader-engine/src/desktopMain/kotlin/com/ytdownloader/engine/download/PlatformChunkDownloader.desktop.kt:77-91 | A header value read from the dump never spans a line break. |
| ChunkTransport.HeaderValueFound | shared/downloader-engine/src/desktopMain/kotlin/com/ytdownloader/engine/download/PlatformChunkDownloader.desktop.kt:77-91 | A header is absent exactly when no position of the dump starts it, ignoring case. |
| ChunkTransport.ClenAt | shared/downloader-engine/src/desktopMain/kotlin/com/ytdownloader/engine/download/PlatformChunkDownloader.desktop.kt:80-86 | A `clen=` match follows `?` or `&` and captures a non-empty run of digits. |
| ChunkTransport.TotalSizeOrder | shared/downloader-engine/src/desktopMain/kotlin/com/ytdownloader/engine/download/PlatformChunkDownloader.desktop.kt:77-86 | The total is the number after `/` in Content-Range when there is one. Otherwise it is the `clen=` value of the original URL. |
| ChunkTransport.TotalFromRangeOf | shared/downloader-engine/src/desktopMain/kotlin/com/ytdownloader/engine/download/PlatformChunkDownloader.desktop.kt:77-79 | A Content-Range value ending in `/N` gives the total N. |
| ChunkTransport.LastStatusLine | shared/downloader-engine/src/desktopMain/kotlin/com/ytdownloader/engine/download/PlatformChunkDownloader.desktop.kt:94-97 | The code found is a non-empty digit run. |
| ChunkTransport.LastStatusLineIsLast | shared/downloader-engine/src/desktopMain/kotlin/com/ytdownloader/engine/download/PlatformChunkDownloader.desktop.kt:94-97 | The status comes from an `HTTP/x NNN` line that has no status line after it. |
| ChunkTransport.CurlStatusDefault | shared/downloader-engine/src/desktopMain/kotlin/com/ytdownloader/engine/download/PlatformChunkDownloader.desktop.kt:94-97 | With no status line, the status is 200 if curl exited 0, else 403. |
| ChunkTransport.StatusLineOf | shared/downloader-engine/src/desktopMain/kotlin/com/ytdownloader/engine/download/PlatformChunkDownloader.desktop.kt:94-97 | A dumped `HTTP/<version> <code>` line gives back that code. |
| ChunkTransport.DesktopChunk | shared/downloader-engine/src/desktopMain/kotlin/com/ytdownloader/engine/download/PlatformChunkDownloader.desktop.kt:38-115 | The desktop transport requests the range URL and answers with the reply that curl's run and an optional fault determine. |
| ChunkTransport.DesktopReplyFacts | shared/downloader-engine/src/desktopMain/kotlin/com/ytdownloader/engine/download/PlatformChunkDownloader.desktop.kt:99-115 | Without a fault, `bytesDownloaded` is the sum of the reported counts. `error` is set iff curl exited non-zero or a fault occurred. A fault gives status -1, 0 bytes, no total and a non-null error. |
| ChunkTransport.DesktopReportsErrorBody | shared/downloader-engine/src/desktopMain/kotlin/com/ytdownloader/engine/download/PlatformChunkDownloader.desktop.kt:44-72 | As written, a 403 reply that has a body reports that body's bytes as downloaded. |
| ChunkTransport.DesktopCheckedReportsOnlySuccess | shared/downloader-engine/src/desktopMain/kotlin/com/ytdownloader/engine/download/PlatformChunkDownloader.desktop.kt:44-72 | The corrected desktop transport (curl with `--fail`) reports bytes only for a 2xx status, and its byte count is still the sum of its reports. |
| ChunkTransport.AndroidChunk | shared/downloader-engine/src/androidMain/kotlin/com/ytdownloader/engine/download/PlatformChunkDownloader.android.kt:36-115 | The Android transport requests the range URL and answers with the reply that the connection and an optional fault determine. |
| ChunkTransport.AndroidReplyFacts | shared/downloader-engine/src/androidMain/kotlin/com/ytdownloader/engine/download/PlatformChunkDownloader.android.kt:56-115 | A non-2xx status gives 0 bytes, no total, no reports and the error `HTTP n`. A 2xx status has no error, and its bytes are the sum of the reads. A fault gives status -1 and 0 bytes. Bytes are reported only for 2xx. |
| HttpDownloader.ReportCounts | shared/downloader-engine/src/commonMain/kotlin/com/ytdownloader/engine/download/HttpDownloader.kt:110-113 | Each reported count is added to `downloaded` and passed to `onProgress` with the running total. |
| HttpDownloader.RefreshIfDue | shared/downloader-engine/src/commonMain/kotlin/com/ytdownloader/engine/download/HttpDownloader.kt:76-89 | A proactive refresh is asked for only at or above 15 MiB on the current URL and below 100 refreshes. Only a returned URL replaces the current one and resets the per-URL counter. |
| HttpDownloader.FetchChunk | shared/downloader-engine/src/commonMain/kotlin/com/ytdownloader/engine/download/HttpDownloader.kt:92-114 | One chunk call is appended to the log with the size, range and append flag its step rule demands. |
| HttpDownloader.RefreshAfter403 | shared/downloader-engine/src/commonMain/kotlin/com/ytdownloader/engine/download/HttpDownloader.kt:120-135 | After a 403 below the refresh cap, the refresher is asked. A returned URL replaces the current one and counts as a refresh. |
| HttpDownloader.Iteration | shared/downloader-engine/src/commonMain/kotlin/com/ytdownloader/engine/download/HttpDownloader.kt:72-159 | One loop iteration keeps the log well-formed and reports the exit it takes: failure, end of data or short chunk. |
| HttpDownloader.Download | shared/downloader-engine/src/commonMain/kotlin/com/ytdownloader/engine/download/HttpDownloader.kt:53-180 | The loop's log is well-formed, and the progress is the one its replay gives. At most 100 refreshes happen. A cancel gives `Cancelled`. An unrecovered error gives `NetworkFailure` with the error text. A finish concludes from the replayed totals. Running out of fuel leaves the loop at an iteration boundary. |
| HttpDownloaderFacts.WFPrefix | shared/downloader-engine/src/commonMain/kotlin/com/ytdownloader/engine/download/HttpDownloader.kt:71-160 | Every prefix of a well-formed loop log is well-formed. |
| HttpDownloaderFacts.RefreshCap | shared/downloader-engine/src/commonMain/kotlin/com/ytdownloader/engine/download/HttpDownloader.kt:76-131 | `urlRefreshCount` equals the number of refreshes that returned a URL, and never exceeds 100. |
| HttpDownloaderFacts.ProgressStepsFacts | shared/downloader-engine/src/commonMain/kotlin/com/ytdownloader/engine/download/HttpDownloader.kt:110-113 | There is one progress report per count, and the j-th carries the start plus the first j+1 counts. |
| HttpDownloaderFacts.ProgressIsRunningTotal | shared/downloader-engine/src/commonMain/kotlin/com/ytdownloader/engine/download/HttpDownloader.kt:61-113 | `downloaded` is `resumeBytes` plus the sum of all reported counts. Every progress report carries the running total at its point. |
| HttpDownloaderFacts.CallCounts | shared/downloader-engine/src/commonMain/kotlin/com/ytdownloader/engine/download/HttpDownloader.kt:71-160 | The chunk and refresh call counters match the log. |
| HttpDownloaderFacts.ChunkRules | shared/downloader-engine/src/commonMain/kotlin/com/ytdownloader/engine/download/HttpDownloader.kt:92-109 | Each chunk starts at the running total on the current URL. It appends unless it is the first chunk of a fresh download. The first chunk is exactly 10 MiB and the others 95-100% of that. The range end never passes `total - 1` once the total is known. |
| HttpDownloaderFacts.FirstChunkUntilAccepted | shared/downloader-engine/src/commonMain/kotlin/com/ytdownloader/engine/download/HttpDownloader.kt:150-155 | `isFirstChunk` holds exactly until some chunk is accepted. |
| HttpDownloaderFacts.NothingBeforeAcceptance | shared/downloader-engine/src/commonMain/kotlin/com/ytdownloader/engine/download/HttpDownloader.kt:145-155 | Until a chunk is accepted, there are no validators, no total and no bytes on the current URL. |
| HttpDownloaderFacts.ValidatorsFromFirstAccepted | shared/downloader-engine/src/commonMain/kotlin/com/ytdownloader/engine/download/HttpDownloader.kt:150-153 | ETag and Last-Modified are those of the first accepted chunk. |
| HttpDownloaderFacts.TotalOnceKnownStays | shared/downloader-engine/src/commonMain/kotlin/com/ytdownloader/engine/download/HttpDownloader.kt:147-149 | Once the total is known, it never changes. |
| HttpDownloaderFacts.TotalFromAcceptedChunk | shared/downloader-engine/src/commonMain/kotlin/com/ytdownloader/engine/download/HttpDownloader.kt:147-149 | A known total is the content length of some accepted chunk. |
| HttpDownloaderFacts.RetryAfter403 | shared/downloader-engine/src/commonMain/kotlin/com/ytdownloader/engine/download/HttpDownloader.kt:120-131 | After a 403 and a successful refresh, the next chunk uses the fresh URL and keeps the append flag and the total. It starts past whatever the failed call reported. |
| HttpDownloaderFacts.RetrySameStart | shared/downloader-engine/src/commonMain/kotlin/com/ytdownloader/engine/download/HttpDownloader.kt:120-131 | With a transport that reports nothing for an error status, the retry asks for the same bytes again. |
| HttpDownloaderFacts.DesktopRetrySkipsErrorBody | shared/downloader-engine/src/commonMain/kotlin/com/ytdownloader/engine/download/HttpDownloader.kt:110-131 | With the desktop transport as written, the retry after a 403 that had a body starts past that body, so the retried range skips file bytes. |
| HttpDownloaderFacts.CdnClientShape | shared/downloader-engine/src/commonMain/kotlin/com/ytdownloader/engine/download/HttpDownloader.kt:39-41 | A found client is a non-empty run of `[A-Z_]`, taken from a `?c=` or `&c=` in the URL. |
| HttpDownloaderFacts.CdnClientOf | shared/downloader-engine/src/commonMain/kotlin/com/ytdownloader/engine/download/KtorDownloaderEngine.kt:436-438 | A URL `base?c=CLIENT...` gives back CLIENT. |
| Innertube.FindMatch | shared/downloader-engine/src/commonMain/kotlin/com/ytdownloader/engine/parser/InnertubeClient.kt:49 | `Regex.find` gives the leftmost match position of an id pattern, or -1 when there is none. |
| Innertube.CapturedId | shared/downloader-engine/src/commonMain/kotlin/com/ytdownloader/engine/parser/InnertubeClient.kt:41-50 | A pattern's capture is a well-formed video id, and is None exactly when the pattern has no match. |
| Innertube.ExtractVideoId | shared/downloader-engine/src/commonMain/kotlin/com/ytdownloader/engine/parser/InnertubeClient.kt:39-53 | The loop over the patterns returns the first pattern's first match. |
| Innertube.FirstCaptureIsVideoId | shared/downloader-engine/src/commonMain/kotlin/com/ytdownloader/engine/parser/InnertubeClient.kt:41-46 | Any returned id is 11 characters from `[A-Za-z0-9_-]`. |
| Innertube.FirstCaptureIsFirst | shared/downloader-engine/src/commonMain/kotlin/com/ytdownloader/engine/parser/InnertubeClient.kt:48-51 | The result comes from the first pattern, in list order, that matches. |
| Innertube.FirstCaptureNone | shared/downloader-engine/src/commonMain/kotlin/com/ytdownloader/engine/parser/InnertubeClient.kt:48-52 | Null exactly when no pattern matches. |
| Innertube.BareIdIsItself | shared/downloader-engine/src/commonMain/kotlin/com/ytdownloader/engine/parser/InnertubeClient.kt:46 | A bare 11-character id is returned as itself. |
| Innertube.WatchUrlId | shared/downloader-engine/src/commonMain/kotlin/com/ytdownloader/engine/parser/InnertubeClient.kt:41 | A watch URL `...?v=ID...` gives ID. |
| Innertube.VisitorDataFrom | shared/downloader-engine/src/commonMain/kotlin/com/ytdownloader/engine/parser/InnertubeClient.kt:37 | The captured visitor data is non-empty and quote-free. It is None only when no position matches. |
| Innertube.VisitorDataRoundTrip | shared/downloader-engine/src/commonMain/kotlin/com/ytdownloader/engine/parser/InnertubeClient.kt:37 | A page containing `"VISITOR_DATA":"v"` gives back v. |
| Innertube.VisitorDataFirst | shared/downloader-engine/src/commonMain/kotlin/com/ytdownloader/engine/parser/InnertubeClient.kt:81 | The leftmost match is the one returned. |
| Innertube.CookiePair | shared/downloader-engine/src/commonMain/kotlin/com/ytdownloader/engine/parser/InnertubeClient.kt:85-87 | A Set-Cookie value is kept exactly when its trimmed part before `;` contains `=`. The kept part has no `;` and is trimmed. |
| Innertube.CookiePairs | shared/downloader-engine/src/commonMain/kotlin/com/ytdownloader/engine/parser/InnertubeClient.kt:84-88 | `mapNotNull` keeps only well-formed pairs. |
| Innertube.JoinSpaced | shared/downloader-engine/src/commonMain/kotlin/com/ytdownloader/engine/parser/InnertubeClient.kt:94 | Joining with `"; "` is joining with `;` after prefixing a space to every part but the first. |
| Innertube.CookieHeaderSplits | shared/downloader-engine/src/commonMain/kotlin/com/ytdownloader/engine/parser/InnertubeClient.kt:90-94 | The cookie header splits back into `CONSENT=YES+1`, ` SOCS=CAI` and each kept Set-Cookie pair, in order. |
| Innertube.FetchSessionData | shared/downloader-engine/src/commonMain/kotlin/com/ytdownloader/engine/parser/InnertubeClient.kt:68-104 | A session exists exactly when the page was fetched and has visitor data. It carries that visitor data and the assembled cookie header. |
| Innertube.FetchPlayerResponse | shared/downloader-engine/src/commonMain/kotlin/com/ytdownloader/engine/parser/InnertubeClient.kt:112-194 | An accepted response came from an HTTP success whose body is this object. Its playability status is `OK`, and it has a non-empty formats list. |
| Innertube.AcceptedWhenChecksPass | shared/downloader-engine/src/commonMain/kotlin/com/ytdownloader/engine/parser/InnertubeClient.kt:159-185 | A successful reply that passes every check is accepted. |
| Innertube.RejectedCases | shared/downloader-engine/src/commonMain/kotlin/com/ytdownloader/engine/parser/InnertubeClient.kt:159-190 | A non-success status, a body that is not an object, a status other than `OK`, missing streamingData, or no formats each give null. |
| PageParser.StringAt | shared/downloader-engine/src/commonMain/kotlin/com/ytdownloader/engine/parser/YouTubePageParser.kt:182 | `string(key)` throws exactly on an array or object. A primitive gives its content. |
| PageParser.IntegerAt | shared/downloader-engine/src/commonMain/kotlin/com/ytdownloader/engine/parser/YouTubePageParser.kt:183-184 | `int`/`long` throw exactly on an array or object, and a value read is within the type's range. |
| PageParser.HexCodeIsParse | shared/downloader-engine/src/commonMain/kotlin/com/ytdownloader/engine/parser/YouTubePageParser.kt:159-160 | The two-character code is `toIntOrNull(16)` of those characters, including a leading sign, with ASCII digits and letters only. |
| PageParser.CharOfCode | shared/downloader-engine/src/commonMain/kotlin/com/ytdownloader/engine/parser/YouTubePageParser.kt:162 | `Int.toChar` keeps the low 16 bits of the code. |
| PageParser.PercentDecode | shared/downloader-engine/src/commonMain/kotlin/com/ytdownloader/engine/parser/YouTubePageParser.kt:153-180 | The index loop produces the reference decoding, which is never longer than its input. |
| PageParser.DecodedFront | shared/downloader-engine/src/commonMain/kotlin/com/ytdownloader/engine/parser/YouTubePageParser.kt:156-177 | A valid `%XX` decodes to one character, `+` to a space, and anything else is copied. |
| PageParser.PercentDecodePlain | shared/downloader-engine/src/commonMain/kotlin/com/ytdownloader/engine/parser/YouTubePageParser.kt:173-176 | Text without `%` or `+` decodes to itself. |
| PageParser.PercentRoundTrip | shared/downloader-engine/src/commonMain/kotlin/com/ytdownloader/engine/parser/YouTubePageParser.kt:153-180 | Decoding a percent-encoded string gives the string back. |
| PageParser.SplitPair | shared/downloader-engine/src/commonMain/kotlin/com/ytdownloader/engine/parser/YouTubePageParser.kt:143-144 | `split('=', limit = 2)` gives a pair exactly when the part contains `=`, and the key has no `=`. |
| PageParser.ToMap | shared/downloader-engine/src/commonMain/kotlin/com/ytdownloader/engine/parser/YouTubePageParser.kt:145 | The keys of `toMap` are the keys of the pairs. |
| PageParser.ExtractUrl | shared/downloader-engine/src/commonMain/kotlin/com/ytdownloader/engine/parser/YouTubePageParser.kt:139-151 | The direct `url` field is preferred when present. |
| PageParser.CipherRoundTrip | shared/downloader-engine/src/commonMain/kotlin/com/ytdownloader/engine/parser/YouTubePageParser.kt:141-145 | A signatureCipher built from key/value pairs parses back into the map of those pairs. |
| PageParser.ExtractUrlFromCipher | shared/downloader-engine/src/commonMain/kotlin/com/ytdownloader/engine/parser/YouTubePageParser.kt:139-151 | Without a direct url, a cipher gives its decoded `url` when it has no `s` field. It gives null when it has an `s` field or no `url`. |
| PageParser.KeptEntriesAreComplete | shared/downloader-engine/src/commonMain/kotlin/com/ytdownloader/engine/parser/YouTubePageParser.kt:46-81 | A kept audio entry has an `audio/` MIME type, a URL, an itag and bitrate 0 by default. A kept video entry has a `video/` MIME type, width and height, fps 30 by default, and `hasAudio` iff the codecs contain `mp4a` or `opus`. |
| PageParser.DroppedEntries | shared/downloader-engine/src/commonMain/kotlin/com/ytdownloader/engine/parser/YouTubePageParser.kt:46-82 | A non-object entry throws. An entry missing mimeType, URL or itag is skipped, and so is a video entry missing width or height. Other MIME types are ignored. |
| PageParser.VideoEntryRoundTrip | shared/downloader-engine/src/commonMain/kotlin/com/ytdownloader/engine/parser/YouTubePageParser.kt:64-80 | The fields written for a well-formed video stream read back as that stream. |
| PageParser.AudioEntryRoundTrip | shared/downloader-engine/src/commonMain/kotlin/com/ytdownloader/engine/parser/YouTubePageParser.kt:55-63 | The fields written for a well-formed audio stream read back as that stream. |
| PageParser.SortedFormatsAppend | shared/downloader-engine/src/commonMain/kotlin/com/ytdownloader/engine/parser/YouTubePageParser.kt:46 | Sorting `formats + adaptiveFormats` concatenates the results of each list, in order. |
| PageParser.SortedFormatsMembers | shared/downloader-engine/src/commonMain/kotlin/com/ytdownloader/engine/parser/YouTubePageParser.kt:46-82 | The video list holds exactly the entries classified as video, and the audio list exactly those classified as audio. |
| PageParser.CollectStreams | shared/downloader-engine/src/commonMain/kotlin/com/ytdownloader/engine/parser/YouTubePageParser.kt:43-82 | The `forEach` loop that appends to the two mutable lists computes the reference sort. |
| PageParser.SortedFormatsFailure | shared/downloader-engine/src/commonMain/kotlin/com/ytdownloader/engine/parser/YouTubePageParser.kt:99-101 | Once an entry throws, the whole sort fails. |
| PageParser.PlayerResponseInfo | shared/downloader-engine/src/commonMain/kotlin/com/ytdownloader/engine/parser/YouTubePageParser.kt:25-102 | A successful parse has at least one stream. |
| PageParser.ParsePlayerResponse | shared/downloader-engine/src/commonMain/kotlin/com/ytdownloader/engine/parser/YouTubePageParser.kt:25-102 | The imperative parse computes the reference outcome. |
| PageParser.PlayerResponseOutcomes | shared/downloader-engine/src/commonMain/kotlin/com/ytdownloader/engine/parser/YouTubePageParser.kt:27-101 | Missing `videoDetails` or `videoId` gives `VideoUnavailable`. Both lists empty gives `FormatNotAvailable`. A throwing accessor gives `Unknown`. |
| PageParser.MatchingBrace | shared/downloader-engine/src/commonMain/kotlin/com/ytdownloader/engine/parser/YouTubePageParser.kt:116-137 | The result is the first index holding `}` where the depth, counted outside quoted strings and skipping escaped characters, returns to 0. It is -1 when there is none. |
| PageParser.FindMatchingBrace | shared/downloader-engine/src/commonMain/kotlin/com/ytdownloader/engine/parser/YouTubePageParser.kt:116-137 | The scanning loop computes that index. |
| PageParser.DepthPositiveUntilMatch | shared/downloader-engine/src/commonMain/kotlin/com/ytdownloader/engine/parser/YouTubePageParser.kt:126-133 | From an opening brace, the depth stays at least 1 until the match. |
| PageParser.JsonStart | shared/downloader-engine/src/commonMain/kotlin/com/ytdownloader/engine/parser/YouTubePageParser.kt:105-109 | The start is the first `{` at or after the marker. It is -1 when the marker or the brace is missing. |
| PageParser.PlayerResponseText | shared/downloader-engine/src/commonMain/kotlin/com/ytdownloader/engine/parser/YouTubePageParser.kt:104-112 | There is no text if the marker, the brace or the match is missing. Otherwise the text is the braced substring. |
| PageParser.ParseVideoInfo | shared/downloader-engine/src/commonMain/kotlin/com/ytdownloader/engine/parser/YouTubePageParser.kt:104-114 | A page without an embedded player response gives `VideoUnavailable`. A success comes from decoding that text. |
| PageParser.ParseFromPlayerResponse | shared/downloader-engine/src/commonMain/kotlin/com/ytdownloader/engine/parser/YouTubePageParser.kt:21-23 | A success holds at least one video or audio stream. |
| PageParser.CodecsOfQuoted | shared/downloader-engine/src/commonMain/kotlin/com/ytdownloader/engine/parser/YouTubePageParser.kt:53 | The codecs are the text after `codecs=`, with its quotes trimmed. |
| PageParser.ExampleParse | shared/downloader-engine/src/commonTest/kotlin/com/ytdownloader/engine/parser/YouTubePageParserTest.kt:48-55 | The test's player response gives id `abc123xyz00`, title `Test Video`, one video stream with audio, and one audio stream. |
| PlaylistParser.Dedup | shared/playlist-parser/src/commonMain/kotlin/com/ytdownloader/playlist/YouTubePlaylistParser.kt:15-43 | The insertion-ordered set holds the same ids, each once. |
| PlaylistParser.DedupOrder | shared/playlist-parser/src/commonMain/kotlin/com/ytdownloader/playlist/YouTubePlaylistParser.kt:15-43 | Ids keep their first-occurrence order. |
| PlaylistParser.DedupOfDistinct | shared/playlist-parser/src/commonMain/kotlin/com/ytdownloader/playlist/YouTubePlaylistParser.kt:15 | A list without repeats is kept as is. |
| PlaylistParser.AddEach | shared/playlist-parser/src/commonMain/kotlin/com/ytdownloader/playlist/YouTubePlaylistParser.kt:20-36 | Adding each found id to the set gives the de-duplicated concatenation. |
| PlaylistParser.LazyEntryStartFound | shared/playlist-parser/src/commonMain/kotlin/com/ytdownloader/playlist/YouTubePlaylistParser.kt:18 | The renderer match takes the first `"videoId"` entry after the renderer key, with no `}` in between. |
| PlaylistParser.LazyEntryStartNone | shared/playlist-parser/src/commonMain/kotlin/com/ytdownloader/playlist/YouTubePlaylistParser.kt:18 | When no entry is found, there is none before the first `}`. |
| PlaylistParser.WatchLinkAt | shared/playlist-parser/src/commonMain/kotlin/com/ytdownloader/playlist/YouTubePlaylistParser.kt:28-29 | A watch-link id is 11 id characters, followed at once by `&list=` or its escaped form `\u0026list=`. |
| PlaylistParser.FindAllIds | shared/playlist-parser/src/commonMain/kotlin/com/ytdownloader/playlist/YouTubePlaylistParser.kt:18-36 | Every id found by any pass is 11 characters from the id alphabet. |
| PlaylistParser.FindAllEmpty | shared/playlist-parser/src/commonMain/kotlin/com/ytdownloader/playlist/YouTubePlaylistParser.kt:19-35 | A pass finds nothing exactly when its pattern matches at no position. |
| PlaylistParser.ParsePlaylistIds | shared/playlist-parser/src/commonMain/kotlin/com/ytdownloader/playlist/YouTubePlaylistParser.kt:13-44 | The imperative passes over the mutable set compute the reference result. |
| PlaylistParser.PlaylistIdsWellFormed | shared/playlist-parser/src/commonMain/kotlin/com/ytdownloader/playlist/YouTubePlaylistParser.kt:13-44 | Returned ids are well-formed and distinct. |
| PlaylistParser.PlaylistPrivateIff | shared/playlist-parser/src/commonMain/kotlin/com/ytdownloader/playlist/YouTubePlaylistParser.kt:39-41 | `PlaylistPrivate` is returned exactly when no pattern matches anywhere. |
| PlaylistParser.StrategyOrder | shared/playlist-parser/src/commonMain/kotlin/com/ytdownloader/playlist/YouTubePlaylistParser.kt:18-37 | The renderer pass runs first, then the broad pass, then the watch-link pass. Each later pass runs only if all earlier ones found nothing. |
| PlaylistParser.ExamplePlaylist | shared/playlist-parser/src/commonTest/kotlin/com/ytdownloader/playlist/YouTubePlaylistParserTest.kt:8-21 | The three-entry test page gives two ids, `abc123xyz00` first. |
| PlaylistRepository.ExtractPlaylistId | shared/data/src/commonMain/kotlin/com/ytdownloader/data/repo/DefaultPlaylistRepository.kt:44-47 | There is no id exactly when no `?list=` or `&list=` is followed by an id character. A found id is a non-empty run of id characters. |
| PlaylistRepository.ExtractPlaylistIdLeftmost | shared/data/src/commonMain/kotlin/com/ytdownloader/data/repo/DefaultPlaylistRepository.kt:44-47 | The id is the maximal run after the first `list=` parameter. |
| PlaylistRepository.ExtractPlaylistIdOf | shared/data/src/commonMain/kotlin/com/ytdownloader/data/repo/DefaultPlaylistRepository.kt:44-47 | A URL `...?list=ID` followed by a non-id character gives ID. |
| PlaylistRepository.PlaylistPageUrlRoundTrip | shared/data/src/commonMain/kotlin/com/ytdownloader/data/repo/DefaultPlaylistRepository.kt:35-47 | The playlist page URL built from an id gives that id back. |
| PlaylistRepository.FetchViaInnertube | shared/data/src/commonMain/kotlin/com/ytdownloader/data/repo/DefaultPlaylistRepository.kt:53-85 | Without an API key the result is empty and nothing is sent. Otherwise it is the ids read from the reply to the browse request for `VL<id>`. |
| PlaylistRepository.BrowseIdsWellFormed | shared/data/src/commonMain/kotlin/com/ytdownloader/data/repo/DefaultPlaylistRepository.kt:81-84 | Browse ids are well-formed and de-duplicated. |
| PlaylistRepository.BrowseIdsEmpty | shared/data/src/commonMain/kotlin/com/ytdownloader/data/repo/DefaultPlaylistRepository.kt:54-77 | No key, or a non-success status, gives an empty list. |
| PlaylistRepository.FetchPlaylistIds | shared/data/src/commonMain/kotlin/com/ytdownloader/data/repo/DefaultPlaylistRepository.kt:20-42 | The method returns the reference outcome and sends exactly the reference requests. |
| PlaylistRepository.InvalidUrlSendsNothing | shared/data/src/commonMain/kotlin/com/ytdownloader/data/repo/DefaultPlaylistRepository.kt:21-24 | A URL without a playlist id gives `InvalidUrl(url)` before any request. |
| PlaylistRepository.BrowseResultWins | shared/data/src/commonMain/kotlin/com/ytdownloader/data/repo/DefaultPlaylistRepository.kt:26-32 | A non-empty browse result is returned as is. |
| PlaylistRepository.PageFallback | shared/data/src/commonMain/kotlin/com/ytdownloader/data/repo/DefaultPlaylistRepository.kt:26-41 | An empty or failed browse result falls through to parsing the playlist page. |
| PlaylistRepository.PlaylistFetchWellFormed | shared/data/src/commonMain/kotlin/com/ytdownloader/data/repo/DefaultPlaylistRepository.kt:20-42 | A success is a non-empty list of well-formed, distinct ids. |
| KtorEngine.DefaultCatalogue | shared/downloader-engine/src/commonMain/kotlin/com/ytdownloader/engine/download/KtorDownloaderEngine.kt:116-134 | With the default collaborators, an API catalogue comes from a successful player reply and holds at least one stream. |
| KtorEngine.ApiInfo | shared/downloader-engine/src/commonMain/kotlin/com/ytdownloader/engine/download/KtorDownloaderEngine.kt:116-125 | A player response is parsed exactly when there was one. |
| KtorEngine.PageInfo | shared/downloader-engine/src/commonMain/kotlin/com/ytdownloader/engine/download/KtorDownloaderEngine.kt:142-160 | The page fallback succeeds only with at least one video stream. A missing page gives `VideoUnavailable`, and a throwing parser gives `NetworkFailure`. |
| KtorEngine.LookupItagFinds | shared/downloader-engine/src/commonMain/kotlin/com/ytdownloader/engine/download/KtorDownloaderEngine.kt:71-75 | The refreshed URL belongs to the first stream with the same itag, in the audio list or the video list. It exists iff such a stream does. |
| KtorEngine.RefreshAnswer | shared/downloader-engine/src/commonMain/kotlin/com/ytdownloader/engine/download/KtorDownloaderEngine.kt:66-93 | A refreshed URL requires a player response that parses successfully, and is the URL of the matching itag. |
| KtorEngine.ProbedUrls | shared/downloader-engine/src/commonMain/kotlin/com/ytdownloader/engine/download/KtorDownloaderEngine.kt:192-211 | MP3 probes the audio, a mux probes video then audio, and progressive probes the video. |
| KtorEngine.ProbeCalls | shared/downloader-engine/src/commonMain/kotlin/com/ytdownloader/engine/download/KtorDownloaderEngine.kt:192-208 | One probe call per URL, in the order of the URLs. |
| Text.ContainsIgnoreCase | shared/downloader-engine/src/commonMain/kotlin/com/ytdownloader/engine/download/KtorDownloaderEngine.kt:266 | `contains(ignoreCase = true)` holds iff some position starts the pattern, ignoring case. |
| KtorEngine.BaseName | shared/downloader-engine/src/commonMain/kotlin/com/ytdownloader/engine/download/KtorDownloaderEngine.kt:265-271 | The base name is non-empty. It is either `video_<requestId>` or free of invalid file-name characters. |
| KtorEngine.LinkTitleUsesVideoId | shared/downloader-engine/src/commonMain/kotlin/com/ytdownloader/engine/download/KtorDownloaderEngine.kt:265-271 | A title mentioning `http` or `youtube.com` becomes `video_<videoId>`. |
| KtorEngine.ProgressOf | shared/downloader-engine/src/commonMain/kotlin/com/ytdownloader/engine/download/KtorDownloaderEngine.kt:292-299 | A progress event carries the counts and the speed. Its ETA exists iff the speed is positive and the total known, and then it is the truncated remaining time. |
| KtorEngine.ProgressEvents | shared/downloader-engine/src/commonMain/kotlin/com/ytdownloader/engine/download/KtorDownloaderEngine.kt:292-301 | There is one Progress event per progress callback, in order. |
| KtorEngine.TransferEnd | shared/downloader-engine/src/commonMain/kotlin/com/ytdownloader/engine/download/KtorDownloaderEngine.kt:303-310 | A failed transfer ends in a terminal event: `Cancelled` exactly for a cancellation error, `Failed` with the error otherwise. |
| KtorEngine.PrefixedEvents | shared/downloader-engine/src/commonMain/kotlin/com/ytdownloader/engine/download/KtorDownloaderEngine.kt:218-263 | Non-terminal events emitted while only metadata calls were made keep the pipeline's promise. |
| KtorEngine.Session.constructor | shared/downloader-engine/src/commonMain/kotlin/com/ytdownloader/engine/download/KtorDownloaderEngine.kt:412-413 | A session holds its id, controller and events. |
| KtorEngine.Session.Pause | shared/downloader-engine/src/commonMain/kotlin/com/ytdownloader/engine/download/KtorDownloaderEngine.kt:415-418 | Pauses the controller, then emits `Paused`. |
| KtorEngine.Session.Resume | shared/downloader-engine/src/commonMain/kotlin/com/ytdownloader/engine/download/KtorDownloaderEngine.kt:420-423 | Resumes the controller, then emits `Resumed`. |
| KtorEngine.Session.Cancel | shared/downloader-engine/src/commonMain/kotlin/com/ytdownloader/engine/download/KtorDownloaderEngine.kt:425-428 | Cancels the controller, then emits `Cancelled`. |
| KtorEngine.Engine.constructor | shared/downloader-engine/src/commonMain/kotlin/com/ytdownloader/engine/download/KtorDownloaderEngine.kt:57-64 | A new engine has no cached session and has made no call. |
| KtorEngine.Engine.AskPlayer | shared/downloader-engine/src/commonMain/kotlin/com/ytdownloader/engine/download/KtorDownloaderEngine.kt:116-125 | Makes one player call and parses its answer if there is one. |
| KtorEngine.Engine.ReadPage | shared/downloader-engine/src/commonMain/kotlin/com/ytdownloader/engine/download/KtorDownloaderEngine.kt:143-153 | Makes one page fetch and gives the fallback outcome for it. |
| KtorEngine.Engine.FetchVideoInfo | shared/downloader-engine/src/commonMain/kotlin/com/ytdownloader/engine/download/KtorDownloaderEngine.kt:100-161 | No video id gives `VideoUnavailable` with no call made. The API result is accepted only with a video stream, else the page is tried. Both failing gives `VideoUnavailable`. A success has streams, and only metadata calls are made. |
| KtorEngine.Engine.RefreshUrl | shared/downloader-engine/src/commonMain/kotlin/com/ytdownloader/engine/download/KtorDownloaderEngine.kt:57-98 | Uses the cached session, or fetches and caches one. Then it asks the player and returns the URL for the same itag, or null on any failure. |
| KtorEngine.Engine.ValidateStreams | shared/downloader-engine/src/commonMain/kotlin/com/ytdownloader/engine/download/KtorDownloaderEngine.kt:192-211 | A missing needed stream gives `FormatNotAvailable` with no probe. Otherwise the needed streams are probed (both for a mux), and any failed probe gives `Throttled`. |
| KtorEngine.Engine.RetryValidation | shared/downloader-engine/src/commonMain/kotlin/com/ytdownloader/engine/download/KtorDownloaderEngine.kt:237-259 | The one retry starts with a fresh session fetch. A renewed selection comes from a fresh catalogue with streams, and it validates. |
| KtorEngine.Engine.Prepare | shared/downloader-engine/src/commonMain/kotlin/com/ytdownloader/engine/download/KtorDownloaderEngine.kt:222-263 | A failed fetch or an empty selection fails at once. A failed validation is retried once, and the new selection replaces the old only if it validates. |
| KtorEngine.Engine.TransferMp3 | shared/downloader-engine/src/commonMain/kotlin/com/ytdownloader/engine/download/KtorDownloaderEngine.kt:277-319 | Conversion runs only after a successful download. The temporary file is deleted and `Completed` emitted only after the conversion succeeds. |
| KtorEngine.Engine.TransferMuxed | shared/downloader-engine/src/commonMain/kotlin/com/ytdownloader/engine/download/KtorDownloaderEngine.kt:321-380 | Video downloads fully before audio, and audio starts at offset 0. Mux runs only after both succeed. Both temporary files are deleted and `Completed` emitted only after the mux succeeds. |
| KtorEngine.Engine.TransferProgressive | shared/downloader-engine/src/commonMain/kotlin/com/ytdownloader/engine/download/KtorDownloaderEngine.kt:381-407 | One transfer straight into the target, then `Completed` on success or the transfer's terminal event. |
| KtorEngine.Engine.Deliver | shared/downloader-engine/src/commonMain/kotlin/com/ytdownloader/engine/download/KtorDownloaderEngine.kt:276-409 | The format's branch keeps the pipeline promise, and a non-empty result ends in a terminal event. |
| KtorEngine.Engine.RunPipeline | shared/downloader-engine/src/commonMain/kotlin/com/ytdownloader/engine/download/KtorDownloaderEngine.kt:218-409 | `Queued` and then `Started` come first. Every event is about the request, and only the last may be terminal. `Completed` follows exactly the calls its format needs. A failed transfer ends the events with `Cancelled` or `Failed`. A preparation failure gives exactly `Queued`, `Started`, `Failed(id, error)` after metadata calls only, with the error one of the preparation's. The first transfer starts at the given resume offset. |
| KtorEngine.Engine.StartDownload | shared/downloader-engine/src/commonMain/kotlin/com/ytdownloader/engine/download/KtorDownloaderEngine.kt:213-230 | A new session with a RUNNING controller, whose events keep the pipeline promise. A preparation failure gives exactly `Queued`, `Started`, `Failed`. The first transfer starts at the saved `downloadedBytes`, or at 0 without a resume state. |
| DownloadRepository.WithTask | shared/data/src/commonMain/kotlin/com/ytdownloader/data/download/DefaultDownloadRepository.kt:119-123 | A task is appended only if no task has its id, so ids stay unique. |
| DownloadRepository.WithStatus | shared/data/src/commonMain/kotlin/com/ytdownloader/data/download/DefaultDownloadRepository.kt:96-101 | An absent id leaves the list unchanged. Otherwise only the matching task's status changes, and the ids are kept. |
| DownloadRepository.WithProgress | shared/data/src/commonMain/kotlin/com/ytdownloader/data/download/DefaultDownloadRepository.kt:103-109 | Only the matching task changes, to DOWNLOADING with the progress. |
| DownloadRepository.WithCompleted | shared/data/src/commonMain/kotlin/com/ytdownloader/data/download/DefaultDownloadRepository.kt:111-117 | Only the matching task changes, to COMPLETED with the output path. |
| DownloadRepository.TasksOnEvent | shared/data/src/commonMain/kotlin/com/ytdownloader/data/download/DefaultDownloadRepository.kt:67-94 | Handling an event keeps the task ids. |
| DownloadRepository.TasksOnEventStatus | shared/data/src/commonMain/kotlin/com/ytdownloader/data/download/DefaultDownloadRepository.kt:67-94 | The matching task gets the event's status: Queued→QUEUED, Started/Progress/Resumed→DOWNLOADING, Paused→PAUSED, Completed→COMPLETED, Failed(Cancelled)→CANCELLED, other Failed→FAILED, Cancelled→CANCELLED. Other tasks are untouched. |
| DownloadRepository.TasksAfterKeepsIds | shared/data/src/commonMain/kotlin/com/ytdownloader/data/download/DefaultDownloadRepository.kt:67-94 | Any run of events keeps the ids, and their uniqueness. |
| DownloadRepository.TaskStatusAfter | shared/data/src/commonMain/kotlin/com/ytdownloader/data/download/DefaultDownloadRepository.kt:67-94 | After a run of events, a task has the status of the last event, when that event was about it. |
| DownloadRepository.QueuedTaskAfter | shared/data/src/commonMain/kotlin/com/ytdownloader/data/download/DefaultDownloadRepository.kt:31-48 | An enqueued task stays listed after its events. Every task with its id ends with the status of its last event. |
| DownloadRepository.SavedState | shared/data/src/commonMain/kotlin/com/ytdownloader/data/download/DefaultDownloadRepository.kt:125-140 | The saved state is keyed by the request id, with fileName = id, the event's byte counts and no validators. |
| DownloadRepository.StoreOnEvent | shared/data/src/commonMain/kotlin/com/ytdownloader/data/download/DefaultDownloadRepository.kt:72-92 | Progress saves the state for the request. Completed, Failed and Cancelled delete the event's id and keep the rest. Other events leave the store alone. |
| DownloadRepository.StoreAfterLast | shared/data/src/commonMain/kotlin/com/ytdownloader/data/download/DefaultDownloadRepository.kt:72-92 | After a terminal last event for the request, nothing is stored for it. After a Progress last event, its counts are stored. |
| DownloadRepository.FirstTerminal | shared/data/src/commonMain/kotlin/com/ytdownloader/data/download/DefaultDownloadRepository.kt:41-48 | The position of the first terminal event, or the length when there is none. |
| DownloadRepository.UpToTerminal | shared/data/src/commonMain/kotlin/com/ytdownloader/data/download/DefaultDownloadRepository.kt:41-48 | Forwarded events are a prefix with no terminal event before the last. They end in a terminal event iff the session emitted one. |
| DownloadRepository.FirstTerminalAt | shared/data/src/commonMain/kotlin/com/ytdownloader/data/download/DefaultDownloadRepository.kt:41-48 | Forwarding stops at the first terminal event. |
| DownloadRepository.FirstTerminalNone | shared/data/src/commonMain/kotlin/com/ytdownloader/data/download/DefaultDownloadRepository.kt:41-48 | Without a terminal event, everything is forwarded. |
| DownloadRepository.DefaultDownloadRepository.constructor | shared/data/src/commonMain/kotlin/com/ytdownloader/data/download/DefaultDownloadRepository.kt:20-26 | Starts with no tasks, no sessions and the given store. |
| DownloadRepository.DefaultDownloadRepository.HandleEvent | shared/data/src/commonMain/kotlin/com/ytdownloader/data/download/DefaultDownloadRepository.kt:67-94 | Updates the task list and the store as the event dictates. |
| DownloadRepository.DefaultDownloadRepository.Enqueue | shared/data/src/commonMain/kotlin/com/ytdownloader/data/download/DefaultDownloadRepository.kt:31-51 | Lists the task as QUEUED and reads the resume state before the session starts. It forwards `Queued` and then the session's events up to the first terminal one. The task ends with the status of the last event, and a terminal end leaves nothing stored. |
| DownloadRepository.DefaultDownloadRepository.Forward | shared/data/src/commonMain/kotlin/com/ytdownloader/data/download/DefaultDownloadRepository.kt:41-48 | The collect loop forwards up to the first terminal event, handling each one. |
| DownloadRepository.DefaultDownloadRepository.Pause | shared/data/src/commonMain/kotlin/com/ytdownloader/data/download/DefaultDownloadRepository.kt:53-55 | Pauses the id's session if it has one. |
| DownloadRepository.DefaultDownloadRepository.Resume | shared/data/src/commonMain/kotlin/com/ytdownloader/data/download/DefaultDownloadRepository.kt:57-59 | Resumes the id's session if it has one. |
| DownloadRepository.DefaultDownloadRepository.Cancel | shared/data/src/commonMain/kotlin/com/ytdownloader/data/download/DefaultDownloadRepository.kt:61-63 | Cancels the id's session if it has one. |
| Cli.FormatOf | shared/domain/src/commonMain/kotlin/com/ytdownloader/domain/model/VideoModels.kt:54-58 | `OutputFormat.valueOf` finds the format with exactly that name, and fails otherwise. |
| Cli.QualityOf | shared/domain/src/commonMain/kotlin/com/ytdownloader/domain/model/VideoModels.kt:46-52 | `QualityPreference.valueOf` finds the preference with exactly that name, and fails otherwise. |
| Cli.EngineOf | cli/src/main/kotlin/com/ytdownloader/cli/Main.kt:137-141 | `YTDLP` and `YT-DLP` mean YT_DLP. Otherwise only `KTOR` and `YT_DLP` are accepted. |
| Cli.NamesRoundTrip | cli/src/main/kotlin/com/ytdownloader/cli/Main.kt:132-141 | A value typed in any ASCII case parses to the constant of that name. |
| Cli.ArgAt | cli/src/main/kotlin/com/ytdownloader/cli/Main.kt:131 | `getOrNull` gives the token exactly when the index is in range. |
| Cli.Finish | cli/src/main/kotlin/com/ytdownloader/cli/Main.kt:152-164 | There are options iff a url was set, and they copy the parsed values. |
| Cli.ParseFrom | cli/src/main/kotlin/com/ytdownloader/cli/Main.kt:128-164 | A parsed url was set before or is one of the remaining tokens. A thrown `valueOf` names an uppercased token. |
| Cli.Parse | cli/src/main/kotlin/com/ytdownloader/cli/Main.kt:116-165 | An empty list gives no options. A parsed url is one of the arguments. A failure of `valueOf` is on an uppercased argument. |
| Cli.HelpGivesUsage | cli/src/main/kotlin/com/ytdownloader/cli/Main.kt:146 | A `--help` that is reached returns null. |
| Cli.TrailingFlag | cli/src/main/kotlin/com/ytdownloader/cli/Main.kt:131-145 | A value flag with no token after it returns null for `--format`, `--quality`, `--engine` and `--playlist-max`. For `--url` it leaves url null, and for the two path flags it leaves their value null. |
| Cli.BadPlaylistMax | cli/src/main/kotlin/com/ytdownloader/cli/Main.kt:145 | A non-integer `--playlist-max` returns null. |
| Cli.UrlFlagOverrides | cli/src/main/kotlin/com/ytdownloader/cli/Main.kt:131 | `--url` takes the next token and overwrites whatever url was set. |
| Cli.PlainTokens | cli/src/main/kotlin/com/ytdownloader/cli/Main.kt:147 | A bare token sets the url only if it is still unset. |
| Cli.DefaultsWithoutFlags | cli/src/main/kotlin/com/ytdownloader/cli/Main.kt:118-126 | Without flags, the first token is the url, with the defaults MP4, BEST, KTOR, not a playlist and no paths. |
| Cli.ParseArgs | cli/src/main/kotlin/com/ytdownloader/cli/Main.kt:116-165 | The `while` loop over nine local variables computes the reference parse. |
| Cli.LimitedIds | cli/src/main/kotlin/com/ytdownloader/cli/Main.kt:42 | Keeps the first `max(playlistMax, 0)` ids, or all of them when there is no limit. |
| Cli.Percent | cli/src/main/kotlin/com/ytdownloader/cli/Main.kt:72-73 | The percent is shown iff the total is known and positive. It lies between 0 and 100 while `downloaded <= total`, and is 100 at the end. |
| Text.ParseInteger | cli/src/main/kotlin/com/ytdownloader/cli/Main.kt:145 | `toIntOrNull` over ASCII digits: a value is in the type's range, and for an unsigned digit string it is the digits' value. Empty text gives null. |
| Text.IntToStringRoundTrip | cli/src/main/kotlin/com/ytdownloader/cli/Main.kt:145 | A written integer parses back to itself. |
| Text.TruncDiv | cli/src/main/kotlin/com/ytdownloader/cli/Main.kt:73 | `Long` division truncates toward zero. |
| Text.Trim | shared/downloader-engine/src/commonMain/kotlin/com/ytdownloader/engine/util/FileNameSanitizer.kt:7 | `trim` removes exactly the whitespace at both ends, and keeps the middle. |
| Text.TrimBlank | shared/downloader-engine/src/commonMain/kotlin/com/ytdownloader/engine/util/FileNameSanitizer.kt:8 | Trimming gives the empty string exactly for a blank string. |
| Text.SplitJoin | shared/downloader-engine/src/commonMain/kotlin/com/ytdownloader/engine/parser/YouTubePageParser.kt:142 | Joining the parts of a split gives the text back. |
| Text.JoinSplit | shared/downloader-engine/src/commonMain/kotlin/com/ytdownloader/engine/parser/YouTubePageParser.kt:142 | Splitting a join of separator-free parts gives the parts back. |

## Left out

- Concurrency. The model does not cover the `Semaphore` admission gate or
  `channelFlow` in the download repository, the `MutableSharedFlow` replay
  and drop-oldest buffer, coroutine scopes, `isActive` and `yield`. Each
  event stream is an appended sequence, and a running session's events are
  all emitted before `Enqueue` forwards them. Operations from other
  coroutines on the controller are a given sequence.
- Network, process and file I/O are parameters of the model. This covers
  the HTTP clients, curl, `HttpURLConnection`, ffmpeg, `probeStreamUrl`,
  `createDirectories` and file deletion (recorded as a call only), the
  temporary header file of the curl transport, and the JSON state and
  consent files. The state store is a map.
- JSON text parsing (`parseToJsonElement`) is a decoding function the
  caller supplies, and Kotlin `Regex` is replaced by scanners written for
  each pattern.
- The UI front ends, the yt-dlp and Python engines, the engine factories,
  the ffmpeg wrappers and pure delegation (use cases, `AppContainer`) are
  not part of this model.
- Clocks and randomness are inputs: the chunk jitter, the time marks of
  the rate limiter and the speed sampler, the `updatedAtEpochMillis`
  stamp, and download ids.
- The debug `println`s are left out, and so are the CLI's `printUsage`,
  `main` and `downloadAndWait`, which print, read system properties and
  wait on flows. `observeTasks` is a plain read of the `tasks` field.
- Throttling.RateLimiter.WaitFor: the floating-point wait duration is not
  computed. The model keeps only that the wait is at least 1 ms.
- Progress.Speed: speed is an integer quotient. The source divides in
  floating point and then truncates, and the model keeps only the
  truncated value.
- HttpDownloader.Download: the loop runs on a `fuel` bound. The source
  has no termination guarantee, because a server may keep sending full
  chunks, and running out of fuel is a separate result.
- HttpDownloader.Download: the rate limiter's throttling inside the
  progress callback only delays, so it is not modelled in the loop.
  Exceptions thrown by the refresher or by `onProgress` are not modelled.
  The refresher's own exceptions become null in the engine.
- KtorEngine.Engine.RunPipeline: the parser, the stream selector and the
  Innertube client are collaborators given to the engine, as the source's
  constructor takes them. `DefaultCollaborators` ties them to this model's
  own definitions. URL refreshes made during a transfer are part of that
  transfer's answer, not separate recorded calls.
- Cli.Percent: `Long` overflow of `downloaded * 100` is not modelled.
  Integers are unbounded, apart from the explicit `Int`/`Long` ranges of
  `toIntOrNull` and `longOrNull`.
- Text.Uppercase: case mapping covers ASCII letters only.
- Text.ParseInteger: digits are ASCII only. The JVM's `toIntOrNull` reads digits with `Character.digit`, which also accepts other Unicode decimal digits (such as U+0663) and fullwidth letters; the model rejects them.
- PageParser.HexCodeIsParse: hex digits are ASCII only, for the same reason, so a `%` followed by a non-ASCII Unicode digit is copied rather than decoded.
- KtorEngine.Resolve: `toPath()` and `resolve` follow okio's own path rules (for example, redundant separators are dropped); the model only joins the directory and the name with one `/`.

## Findings

| source | as written | input that shows it | evidently intended | confidence | as-written member | corrected member |
|---|---|---|---|---|---|---|
| shared/downloader-engine/src/desktopMain/kotlin/com/ytdownloader/engine/download/PlatformChunkDownloader.desktop.kt:44-72 | curl runs without `--fail`, so an HTTP 403 error page is written to the output file and its bytes are passed to `onBytesWritten`. The downloader's 403 retry (HttpDownloader.kt:120-131) then starts at `downloaded` plus the error page's length. | A chunk at offset s whose reply is `HTTP/1.1 403` with a non-empty body of n bytes, followed by a refresh that returns a URL. The retry asks for the range from s+n, so file bytes s..s+n-1 are never fetched and the error page stays in the file. | A non-2xx reply reports no bytes, as the Android transport does, so the retry after a refresh asks for the same range again. | not executed | HttpDownloaderFacts.DesktopRetrySkipsErrorBody | HttpDownloaderFacts.RetrySameStart |
