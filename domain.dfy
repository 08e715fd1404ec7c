/**
  * The value types shared by every component: the video catalogue, the
  * download request and its lifecycle events, the error taxonomy, the
  * success/failure wrapper and the persisted resume record.
  *
  * Sizes, bitrates and times are Kotlin `Long`s and `Int`s in the source;
  * here they are unbounded integers (none of the modelled operations reach
  * the 64-bit limits). A `Throwable` cause is represented by its message.
  */
module Domain {

  import opened Wrappers

  datatype VideoId = VideoId(value: string)

  datatype PlaylistId = PlaylistId(value: string)

  /** One video stream; `hasAudio` marks a progressive (audio-carrying) stream. */
  datatype StreamInfo = StreamInfo(
    itag: int,
    mimeType: string,
    codecs: string,
    width: int,
    height: int,
    fps: int,
    bitrate: int,
    url: string,
    contentLength: Option<int>,
    hasAudio: bool)

  /** One audio-only stream. */
  datatype AudioStreamInfo = AudioStreamInfo(
    itag: int,
    mimeType: string,
    codecs: string,
    bitrate: int,
    url: string,
    contentLength: Option<int>)

  /** The normalised catalogue of one video. */
  datatype VideoInfo = VideoInfo(
    id: VideoId,
    title: string,
    author: string,
    durationSeconds: int,
    streams: seq<StreamInfo>,
    audioStreams: seq<AudioStreamInfo>,
    thumbnailUrl: Option<string>)

  datatype QualityPreference = BEST | HD_1080 | HD_720 | SD_480 | SD_360

  datatype OutputFormat = MP4 | WEBM | MP3
  {
    /** `name.lowercase()`, the file extension of the final output. */
    function Extension(): string
    {
      match this
      case MP4 => "mp4"
      case WEBM => "webm"
      case MP3 => "mp3"
    }
  }

  datatype DownloadId = DownloadId(value: string)

  datatype DownloadRequest = DownloadRequest(
    id: DownloadId,
    url: string,
    qualityPreference: QualityPreference,
    outputFormat: OutputFormat,
    outputDirectory: string)

  datatype DownloadProgress = DownloadProgress(
    downloadedBytes: int,
    totalBytes: Option<int>,
    speedBytesPerSec: int,
    etaSeconds: Option<int>)

  /** The error taxonomy; a cause is kept as its message. */
  datatype DownloadError =
    | InvalidUrl(url: string)
    | NetworkFailure(cause: string)
    | Throttled
    | FormatNotAvailable
    | PlaylistPrivate
    | VideoUnavailable
    | ConversionFailed(cause: string)
    | StorageFailure(cause: string)
    | CancelledError   // the source's DownloadError.Cancelled
    | Unknown(cause: string)

  /** The lifecycle events of one download. */
  datatype DownloadEvent =
    | Queued(id: DownloadId)
    | Started(id: DownloadId)
    | Progress(id: DownloadId, progress: DownloadProgress)
    | Paused(id: DownloadId)
    | Resumed(id: DownloadId)
    | Completed(id: DownloadId, filePath: string)
    | Failed(id: DownloadId, error: DownloadError)
    | Cancelled(id: DownloadId)
  {
    /** The three events after which a consumer stops listening. */
    predicate IsTerminal()
    {
      Completed? || Failed? || Cancelled?
    }
  }

  datatype DownloadStatus = QUEUED | DOWNLOADING | PAUSED | COMPLETED | FAILED | CANCELLED

  /** One entry of the aggregate task list shown to front-ends. */
  datatype DownloadTask = DownloadTask(
    id: DownloadId,
    url: string,
    status: DownloadStatus,
    title: Option<string>,
    outputPath: Option<string>,
    progress: Option<DownloadProgress>)

  /** `Outcome<T>`: a value or a domain error. */
  datatype Outcome<+T> = Success(value: T) | Failure(error: DownloadError)

  /** The persisted resume record of one download. */
  datatype DownloadState = DownloadState(
    id: DownloadId,
    url: string,
    outputDirectory: string,
    fileName: string,
    outputFormat: OutputFormat,
    qualityPreference: QualityPreference,
    downloadedBytes: int,
    totalBytes: Option<int>,
    eTag: Option<string>,
    lastModified: Option<string>,
    updatedAtEpochMillis: int)
}
