/**
  * The command-line front end: `CliOptions.parse`, which walks the argument
  * list once with an index and nine pending option values, the playlist
  * limit and the percentage shown for a progress event.
  */
module Cli {
  import opened Wrappers
  import opened Text
  import opened Domain

  datatype EngineMode = KTOR | YT_DLP

  /** A parsed command line. */
  datatype CliOptions = CliOptions(
    url: string,
    format: OutputFormat,
    quality: QualityPreference,
    outputDir: Option<string>,
    isPlaylist: bool,
    engineMode: EngineMode,
    ytDlpPath: Option<string>,
    ffmpegPath: Option<string>,
    playlistMax: Option<int>)

  /**
    * What `parse` does with an argument list: return options, return null
    * (the usage text is then shown), or throw from an enum `valueOf` on the
    * upper-cased name it was given.
    */
  datatype ParseResult = Options(options: CliOptions) | NoOptions | Thrown(name: string)

  /** The nine values `parse` keeps while it walks the arguments. */
  datatype Pending = Pending(
    url: Option<string>,
    format: OutputFormat,
    quality: QualityPreference,
    outputDir: Option<string>,
    playlist: bool,
    engineMode: EngineMode,
    ytDlpPath: Option<string>,
    ffmpegPath: Option<string>,
    playlistMax: Option<int>)

  /** The values before any argument is read. */
  const Defaults := Pending(None, MP4, BEST, None, false, KTOR, None, None, None)

  // ---------------------------------------------------------------------------
  // Enum names
  // ---------------------------------------------------------------------------

  function FormatName(f: OutputFormat): string
  {
    match f
    case MP4 => "MP4"
    case WEBM => "WEBM"
    case MP3 => "MP3"
  }

  function QualityName(q: QualityPreference): string
  {
    match q
    case BEST => "BEST"
    case HD_1080 => "HD_1080"
    case HD_720 => "HD_720"
    case SD_480 => "SD_480"
    case SD_360 => "SD_360"
  }

  function EngineName(m: EngineMode): string
  {
    match m
    case KTOR => "KTOR"
    case YT_DLP => "YT_DLP"
  }

  /** `OutputFormat.valueOf`: the format whose name is `name`, if any. */
  function FormatOf(name: string): (r: Option<OutputFormat>)
    ensures r.Some? ==> FormatName(r.value) == name
    ensures forall f :: FormatName(f) == name ==> r == Some(f)
  {
    if name == "MP4" then Some(MP4)
    else if name == "WEBM" then Some(WEBM)
    else if name == "MP3" then Some(MP3)
    else None
  }

  /** `QualityPreference.valueOf`: the preference whose name is `name`, if any. */
  function QualityOf(name: string): (r: Option<QualityPreference>)
    ensures r.Some? ==> QualityName(r.value) == name
    ensures forall q :: QualityName(q) == name ==> r == Some(q)
  {
    if name == "BEST" then Some(BEST)
    else if name == "HD_1080" then Some(HD_1080)
    else if name == "HD_720" then Some(HD_720)
    else if name == "SD_480" then Some(SD_480)
    else if name == "SD_360" then Some(SD_360)
    else None
  }

  /** The `--engine` value: "YTDLP" and "YT-DLP" are aliases of YT_DLP, otherwise `EngineMode.valueOf`. */
  function EngineOf(raw: string): (r: Option<EngineMode>)
    ensures raw == "YTDLP" || raw == "YT-DLP" ==> r == Some(YT_DLP)
    ensures raw != "YTDLP" && raw != "YT-DLP" ==> (r.Some? <==> raw == "KTOR" || raw == "YT_DLP")
    ensures r.Some? && raw != "YTDLP" && raw != "YT-DLP" ==> EngineName(r.value) == raw
  {
    if raw == "YTDLP" || raw == "YT-DLP" then Some(YT_DLP)
    else if raw == "KTOR" then Some(KTOR)
    else if raw == "YT_DLP" then Some(YT_DLP)
    else None
  }

  /** Every enum value is read back from its name, whatever the case it is typed in. */
  lemma NamesRoundTrip(f: OutputFormat, q: QualityPreference, m: EngineMode, typed: string)
    ensures Uppercase(typed) == FormatName(f) ==> FormatOf(Uppercase(typed)) == Some(f)
    ensures Uppercase(typed) == QualityName(q) ==> QualityOf(Uppercase(typed)) == Some(q)
    ensures Uppercase(typed) == EngineName(m) ==> EngineOf(Uppercase(typed)) == Some(m)
  {
  }

  // ---------------------------------------------------------------------------
  // The reference reading of an argument list
  // ---------------------------------------------------------------------------

  /** `args.getOrNull(j)`. */
  function ArgAt(args: seq<string>, j: nat): (r: Option<string>)
    ensures r.Some? <==> j < |args|
    ensures r.Some? ==> r.value == args[j]
  {
    if j < |args| then Some(args[j]) else None
  }

  /** The result once every argument is read: options exactly when a URL was given. */
  function Finish(p: Pending): (r: ParseResult)
    ensures r.Options? <==> p.url.Some?
    ensures !r.Thrown?
    ensures r.Options? ==>
      && r.options.url == p.url.value && r.options.format == p.format && r.options.quality == p.quality
      && r.options.outputDir == p.outputDir && r.options.isPlaylist == p.playlist
      && r.options.engineMode == p.engineMode && r.options.ytDlpPath == p.ytDlpPath
      && r.options.ffmpegPath == p.ffmpegPath && r.options.playlistMax == p.playlistMax
  {
    match p.url
    case None => NoOptions
    case Some(u) =>
      Options(CliOptions(u, p.format, p.quality, p.outputDir, p.playlist, p.engineMode, p.ytDlpPath, p.ffmpegPath, p.playlistMax))
  }

  /** The flags `parse` recognises. */
  predicate IsFlag(arg: string)
  {
    arg in {"--url", "--format", "--quality", "--output", "--playlist", "--engine",
            "--yt-dlp-path", "--ffmpeg-path", "--playlist-max", "--help"}
  }

  /** The flags that take a value from the next argument. */
  predicate TakesValue(arg: string)
  {
    IsFlag(arg) && arg != "--playlist" && arg != "--help"
  }

  /**
    * Reading `args` from position `i` with the values `p`.  A flag with a
    * value consumes the next argument, or the value is null when there is
    * none; a token that is not a flag is the URL unless one is already set.
    */
  function ParseFrom(args: seq<string>, i: nat, p: Pending): (r: ParseResult)
    ensures r.Options? ==> p.url == Some(r.options.url) || exists j :: i <= j < |args| && args[j] == r.options.url
    ensures r.Thrown? ==> exists j :: i <= j < |args| && Uppercase(args[j]) == r.name
    decreases |args| - i
  {
    if i >= |args| then Finish(p)
    else
      var arg := args[i];
      if arg == "--url" then ParseFrom(args, i + 2, p.(url := ArgAt(args, i + 1)))
      else if arg == "--format" then
        match ArgAt(args, i + 1)
        case None => NoOptions
        case Some(v) =>
          match FormatOf(Uppercase(v))
          case None => Thrown(Uppercase(v))
          case Some(f) => ParseFrom(args, i + 2, p.(format := f))
      else if arg == "--quality" then
        match ArgAt(args, i + 1)
        case None => NoOptions
        case Some(v) =>
          match QualityOf(Uppercase(v))
          case None => Thrown(Uppercase(v))
          case Some(q) => ParseFrom(args, i + 2, p.(quality := q))
      else if arg == "--output" then ParseFrom(args, i + 2, p.(outputDir := ArgAt(args, i + 1)))
      else if arg == "--playlist" then ParseFrom(args, i + 1, p.(playlist := true))
      else if arg == "--engine" then
        match ArgAt(args, i + 1)
        case None => NoOptions
        case Some(v) =>
          match EngineOf(Uppercase(v))
          case None => Thrown(Uppercase(v))
          case Some(m) => ParseFrom(args, i + 2, p.(engineMode := m))
      else if arg == "--yt-dlp-path" then ParseFrom(args, i + 2, p.(ytDlpPath := ArgAt(args, i + 1)))
      else if arg == "--ffmpeg-path" then ParseFrom(args, i + 2, p.(ffmpegPath := ArgAt(args, i + 1)))
      else if arg == "--playlist-max" then
        match ArgAt(args, i + 1)
        case None => NoOptions
        case Some(v) =>
          match ParseInt(v)
          case None => NoOptions
          case Some(n) => ParseFrom(args, i + 2, p.(playlistMax := Some(n)))
      else if arg == "--help" then NoOptions
      else ParseFrom(args, i + 1, if p.url.None? then p.(url := Some(arg)) else p)
  }

  /** `CliOptions.parse`: null for an empty argument list, otherwise the reading from the defaults. */
  function Parse(args: seq<string>): (r: ParseResult)
    ensures args == [] ==> r == NoOptions
    ensures r.Options? ==> exists j :: 0 <= j < |args| && args[j] == r.options.url
    ensures r.Thrown? ==> exists j :: 0 <= j < |args| && Uppercase(args[j]) == r.name
  {
    if args == [] then NoOptions else ParseFrom(args, 0, Defaults)
  }

  /** A `--help` that no flag consumes as its value ends the reading with null. */
  lemma HelpGivesUsage(args: seq<string>, i: nat, p: Pending)
    requires i < |args| && args[i] == "--help"
    ensures ParseFrom(args, i, p) == NoOptions
  {
  }

  /** A value flag with nothing after it: null for a flag whose value is required, a null value otherwise. */
  lemma TrailingFlag(args: seq<string>, p: Pending)
    requires args != [] && TakesValue(args[|args| - 1])
    ensures var flag := args[|args| - 1];
      && (flag in {"--format", "--quality", "--engine", "--playlist-max", "--url"} ==> ParseFrom(args, |args| - 1, p) == NoOptions)
      && (flag == "--output" ==> ParseFrom(args, |args| - 1, p) == Finish(p.(outputDir := None)))
      && (flag == "--yt-dlp-path" ==> ParseFrom(args, |args| - 1, p) == Finish(p.(ytDlpPath := None)))
      && (flag == "--ffmpeg-path" ==> ParseFrom(args, |args| - 1, p) == Finish(p.(ffmpegPath := None)))
  {
  }

  /** A `--playlist-max` value that is not a 32-bit integer gives null. */
  lemma BadPlaylistMax(args: seq<string>, i: nat, p: Pending)
    requires i + 1 < |args| && args[i] == "--playlist-max" && ParseInt(args[i + 1]).None?
    ensures ParseFrom(args, i, p) == NoOptions
  {
  }

  /** `--url` takes the next argument even when a URL is already set. */
  lemma UrlFlagOverrides(args: seq<string>, i: nat, p: Pending)
    requires i + 1 < |args| && args[i] == "--url"
    ensures ParseFrom(args, i, p) == ParseFrom(args, i + 2, p.(url := Some(args[i + 1])))
  {
  }

  /**
    * Arguments without flags change nothing but an unset URL, which the
    * first of them sets.
    */
  lemma {:induction false} PlainTokens(args: seq<string>, i: nat, p: Pending)
    requires forall j :: i <= j < |args| ==> !IsFlag(args[j])
    ensures ParseFrom(args, i, p) == Finish(if p.url.None? && i < |args| then p.(url := Some(args[i])) else p)
    decreases |args| - i
  {
    if i < |args| {
      var q := if p.url.None? then p.(url := Some(args[i])) else p;
      PlainTokens(args, i + 1, q);
    }
  }

  /** Without flags, the first argument is the URL and every option keeps its default. */
  lemma DefaultsWithoutFlags(args: seq<string>)
    requires args != [] && forall j :: 0 <= j < |args| ==> !IsFlag(args[j])
    ensures Parse(args) == Options(CliOptions(args[0], MP4, BEST, None, false, KTOR, None, None, None))
  {
    PlainTokens(args, 0, Defaults);
  }

  // ---------------------------------------------------------------------------
  // The parser as written
  // ---------------------------------------------------------------------------

  /** `CliOptions.parse`, walking the arguments with an index and nine local values. */
  method ParseArgs(args: seq<string>) returns (r: ParseResult)
    ensures r == Parse(args)
  {
    if args == [] {
      return NoOptions;
    }
    var url: Option<string> := None;
    var format := MP4;
    var quality := BEST;
    var outputDir: Option<string> := None;
    var playlist := false;
    var engineMode := KTOR;
    var ytDlpPath: Option<string> := None;
    var ffmpegPath: Option<string> := None;
    var playlistMax: Option<int> := None;

    var i := 0;
    while i < |args|
      invariant 0 <= i <= |args| + 1
      invariant ParseFrom(args, i, Pending(url, format, quality, outputDir, playlist, engineMode, ytDlpPath, ffmpegPath, playlistMax))
                == Parse(args)
      decreases |args| - i
    {
      var arg := args[i];
      if arg == "--url" {
        i := i + 1;
        url := if i < |args| then Some(args[i]) else None;
      } else if arg == "--format" {
        i := i + 1;
        if i >= |args| {
          return NoOptions;
        }
        var name := Uppercase(args[i]);
        var f := FormatOf(name);
        if f.None? {
          return Thrown(name);
        }
        format := f.value;
      } else if arg == "--quality" {
        i := i + 1;
        if i >= |args| {
          return NoOptions;
        }
        var name := Uppercase(args[i]);
        var q := QualityOf(name);
        if q.None? {
          return Thrown(name);
        }
        quality := q.value;
      } else if arg == "--output" {
        i := i + 1;
        outputDir := if i < |args| then Some(args[i]) else None;
      } else if arg == "--playlist" {
        playlist := true;
      } else if arg == "--engine" {
        i := i + 1;
        if i >= |args| {
          return NoOptions;
        }
        var raw := Uppercase(args[i]);
        var m := EngineOf(raw);
        if m.None? {
          return Thrown(raw);
        }
        engineMode := m.value;
      } else if arg == "--yt-dlp-path" {
        i := i + 1;
        ytDlpPath := if i < |args| then Some(args[i]) else None;
      } else if arg == "--ffmpeg-path" {
        i := i + 1;
        ffmpegPath := if i < |args| then Some(args[i]) else None;
      } else if arg == "--playlist-max" {
        i := i + 1;
        if i >= |args| {
          return NoOptions;
        }
        var n := ParseInt(args[i]);
        if n.None? {
          return NoOptions;
        }
        playlistMax := n;
      } else if arg == "--help" {
        return NoOptions;
      } else if url.None? {
        url := Some(arg);
      }
      i := i + 1;
    }

    if url.None? {
      return NoOptions;
    }
    r := Options(CliOptions(url.value, format, quality, outputDir, playlist, engineMode, ytDlpPath, ffmpegPath, playlistMax));
  }

  // ---------------------------------------------------------------------------
  // Playlist limit and progress display
  // ---------------------------------------------------------------------------

  /** The ids a playlist run downloads: the first `max(playlistMax, 0)`, or all without a limit. */
  function LimitedIds<T>(ids: seq<T>, playlistMax: Option<int>): (r: seq<T>)
    ensures r <= ids
    ensures playlistMax.None? ==> r == ids
    ensures playlistMax.Some? ==>
      |r| == if playlistMax.value <= 0 then 0 else if playlistMax.value < |ids| then playlistMax.value else |ids|
  {
    match playlistMax
    case None => ids
    case Some(m) =>
      var n := if m < 0 then 0 else m;
      if n < |ids| then ids[..n] else ids
  }

  /** The percentage shown for a progress event, when its total is known and positive. */
  function Percent(progress: DownloadProgress): (r: Option<int>)
    ensures r.Some? <==> progress.totalBytes.Some? && progress.totalBytes.value > 0
    ensures r.Some? && 0 <= progress.downloadedBytes <= progress.totalBytes.value ==> 0 <= r.value <= 100
    ensures r.Some? && progress.downloadedBytes == progress.totalBytes.value ==> r.value == 100
  {
    match progress.totalBytes
    case Some(total) =>
      if total > 0 then
        if 0 <= progress.downloadedBytes <= total then PercentBound(progress.downloadedBytes, total); Some(TruncDiv(progress.downloadedBytes * 100, total))
        else Some(TruncDiv(progress.downloadedBytes * 100, total))
      else None
    case None => None
  }

  /** Whole-percent division of a count within its total stays within 0..100. */
  lemma PercentBound(downloaded: int, total: int)
    requires 0 <= downloaded <= total && total > 0
    ensures 0 <= TruncDiv(downloaded * 100, total) <= 100
    ensures downloaded == total ==> TruncDiv(downloaded * 100, total) == 100
  {
    var q := TruncDiv(downloaded * 100, total);
    assert q * total <= downloaded * 100 < q * total + total;
    AtLeastOnce(q - 100, total);
    AtLeastOnce(100 - q, total);
    assert (q - 100) * total == q * total - 100 * total;
    if q > 100 {
      assert false;
    }
    if downloaded == total && q < 100 {
      assert false;
    }
  }

  /** A positive multiple of a positive number is at least that number. */
  lemma AtLeastOnce(x: int, y: int)
    ensures x >= 1 && y >= 1 ==> x * y >= y
  {
    if x >= 1 && y >= 1 {
      assert x * y == (x - 1) * y + y;
      if x > 1 {
        AtLeastOnce(x - 1, y);
      }
    }
  }
}
