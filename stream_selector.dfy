/**
  * Stream selection: from a video's catalogue, a quality band and an output
  * format, choose one audio stream (audio-only output), one progressive
  * stream, or a video-only stream to be muxed with the best audio stream.
  */
module StreamSelector {

  import opened Wrappers
  import opened Domain

  datatype SelectedStreams = SelectedStreams(
    video: Option<StreamInfo>,
    audio: Option<AudioStreamInfo>,
    requiresMuxing: bool)

  // ---------------------------------------------------------------------------
  // List helpers with Kotlin's semantics
  // ---------------------------------------------------------------------------

  /**
    * Index of the element `maxByOrNull` returns: the FIRST element whose key
    * is maximal, or -1 for an empty list.
    */
  function ArgMax<T>(xs: seq<T>, key: T -> int): (i: int)
    ensures xs == [] <==> i == -1
    ensures xs != [] ==> 0 <= i < |xs|
    ensures xs != [] ==> forall j :: 0 <= j < |xs| ==> key(xs[j]) <= key(xs[i])
    ensures xs != [] ==> forall j :: 0 <= j < i ==> key(xs[j]) < key(xs[i])
    decreases |xs|
  {
    if xs == [] then -1
    else
      var m := ArgMax(xs[..|xs| - 1], key);
      if m == -1 || key(xs[m]) < key(xs[|xs| - 1]) then |xs| - 1 else m
  }

  /** `maxByOrNull`. */
  function MaxBy<T>(xs: seq<T>, key: T -> int): (r: Option<T>)
    ensures r.None? <==> xs == []
    ensures r.Some? ==> r.value == xs[ArgMax(xs, key)]
  {
    var i := ArgMax(xs, key);
    if i == -1 then None else Some(xs[i])
  }

  /** `filter`. */
  function Filter<T(!new)>(xs: seq<T>, p: T -> bool): (r: seq<T>)
    ensures |r| <= |xs|
    ensures forall x :: x in r <==> x in xs && p(x)
    decreases |xs|
  {
    if xs == [] then []
    else Filter(xs[..|xs| - 1], p) + (if p(xs[|xs| - 1]) then [xs[|xs| - 1]] else [])
  }

  function Height(s: StreamInfo): int { s.height }

  function Bitrate(a: AudioStreamInfo): int { a.bitrate }

  // ---------------------------------------------------------------------------
  // The selector
  // ---------------------------------------------------------------------------

  /** The height band of each quality preference. */
  predicate MatchesPreference(stream: StreamInfo, preference: QualityPreference)
  {
    match preference
    case BEST => true
    case HD_1080 => stream.height >= 1080
    case HD_720 => 720 <= stream.height <= 1079
    case SD_480 => 480 <= stream.height <= 719
    case SD_360 => 360 <= stream.height <= 479
  }

  /**
    * `sortedByDescending { height }.firstOrNull { matches }`: the sort is
    * stable, so this is the first of the tallest matching streams.
    */
  function TallestMatching(streams: seq<StreamInfo>, preference: QualityPreference): Option<StreamInfo>
  {
    MaxBy(Filter(streams, s => MatchesPreference(s, preference)), Height)
  }

  /** The highest-bitrate audio stream (the first of them on a tie). */
  function BestAudio(audioStreams: seq<AudioStreamInfo>): Option<AudioStreamInfo>
  {
    MaxBy(audioStreams, Bitrate)
  }

  predicate IsVideoOnly(s: StreamInfo) { !s.hasAudio }

  predicate IsProgressive(s: StreamInfo) { s.hasAudio }

  /**
    * The video-only candidate: the tallest video-only stream in the band,
    * else the tallest video-only stream of any height.
    */
  function SelectVideoOnly(streams: seq<StreamInfo>, preference: QualityPreference): Option<StreamInfo>
  {
    var videoOnly := Filter(streams, IsVideoOnly);
    var inBand := TallestMatching(videoOnly, preference);
    if inBand.Some? then inBand else MaxBy(videoOnly, Height)
  }

  /** The video-only candidate wins over the progressive band match. */
  predicate VideoOnlyWins(videoOnlyMatch: Option<StreamInfo>, progressiveMatch: Option<StreamInfo>)
  {
    videoOnlyMatch.Some? &&
    videoOnlyMatch.value.height > (if progressiveMatch.Some? then progressiveMatch.value.height else 0)
  }

  /** Every stream a selection names comes from the video's own lists. */
  predicate DrawnFrom(r: SelectedStreams, info: VideoInfo)
  {
    && (r.video.Some? ==> r.video.value in info.streams)
    && (r.audio.Some? ==> r.audio.value in info.audioStreams)
  }

  function Select(info: VideoInfo, preference: QualityPreference, outputFormat: OutputFormat): (r: Option<SelectedStreams>)
    ensures r.Some? ==> DrawnFrom(r.value, info)
    ensures r.Some? && r.value.requiresMuxing ==>
      && r.value.video.Some? && !r.value.video.value.hasAudio
      && r.value.audio == BestAudio(info.audioStreams)
  {
    match outputFormat
    case MP3 =>
      var audio := BestAudio(info.audioStreams);
      if audio.None? then None
      else Some(SelectedStreams(None, audio, false))
    case _ =>
      var progressiveCandidates := Filter(info.streams, IsProgressive);
      var progressiveMatch := TallestMatching(progressiveCandidates, preference);
      var videoOnlyMatch := SelectVideoOnly(info.streams, preference);
      var audio := BestAudio(info.audioStreams);
      if VideoOnlyWins(videoOnlyMatch, progressiveMatch) then
        if audio.None? then None
        else Some(SelectedStreams(videoOnlyMatch, audio, true))
      else
        var progressiveFallback :=
          if progressiveMatch.Some? then progressiveMatch else MaxBy(progressiveCandidates, Height);
        if progressiveFallback.Some? then Some(SelectedStreams(progressiveFallback, None, false))
        else if videoOnlyMatch.None? || audio.None? then None
        else Some(SelectedStreams(videoOnlyMatch, audio, true))
  }

  // ---------------------------------------------------------------------------
  // Properties
  // ---------------------------------------------------------------------------

  /** `TallestMatching` is a tallest stream of the band, and exists iff the band is non-empty. */
  lemma TallestMatchingIsTallest(streams: seq<StreamInfo>, preference: QualityPreference)
    ensures TallestMatching(streams, preference).Some? <==>
      exists s :: s in streams && MatchesPreference(s, preference)
    ensures TallestMatching(streams, preference).Some? ==>
      var t := TallestMatching(streams, preference).value;
      && t in streams && MatchesPreference(t, preference)
      && forall s :: s in streams && MatchesPreference(s, preference) ==> s.height <= t.height
  {
    var band := Filter(streams, s => MatchesPreference(s, preference));
    var t := TallestMatching(streams, preference);
    if t.Some? {
      var i := ArgMax(band, Height);
      assert t.value == band[i];
      assert band[i] in band;
      forall s | s in streams && MatchesPreference(s, preference)
        ensures s.height <= t.value.height
      {
        assert s in band;
        var j :| 0 <= j < |band| && band[j] == s;
        assert Height(band[j]) <= Height(band[i]);
      }
    } else {
      forall s | s in streams ensures !MatchesPreference(s, preference) {
        assert s !in band;
      }
    }
  }

  /** A band of five rows: BEST takes every height, the other four are disjoint intervals. */
  lemma BandTable(s: StreamInfo)
    ensures MatchesPreference(s, BEST)
    ensures MatchesPreference(s, HD_1080) <==> s.height >= 1080
    ensures MatchesPreference(s, HD_720) <==> 720 <= s.height < 1080
    ensures MatchesPreference(s, SD_480) <==> 480 <= s.height < 720
    ensures MatchesPreference(s, SD_360) <==> 360 <= s.height < 480
    ensures s.height >= 360 ==>
      |set p | p in {HD_1080, HD_720, SD_480, SD_360} && MatchesPreference(s, p)| == 1
    ensures s.height < 360 ==> forall p :: p != BEST ==> !MatchesPreference(s, p)
  {
    var matching := set p | p in {HD_1080, HD_720, SD_480, SD_360} && MatchesPreference(s, p);
    if s.height >= 1080 {
      assert matching == {HD_1080};
    } else if s.height >= 720 {
      assert matching == {HD_720};
    } else if s.height >= 480 {
      assert matching == {SD_480};
    } else if s.height >= 360 {
      assert matching == {SD_360};
    }
  }

  /** Audio-only output: the highest-bitrate audio stream, no video, no muxing; none iff no audio. */
  lemma SelectMp3(info: VideoInfo, preference: QualityPreference)
    ensures Select(info, preference, MP3).None? <==> info.audioStreams == []
    ensures Select(info, preference, MP3).Some? ==>
      var r := Select(info, preference, MP3).value;
      && r.video.None? && !r.requiresMuxing && r.audio.Some?
      && (forall a :: a in info.audioStreams ==> a.bitrate <= r.audio.value.bitrate)
      && r.audio.value in info.audioStreams
  {
    var b := BestAudio(info.audioStreams);
    if b.Some? {
      var i := ArgMax(info.audioStreams, Bitrate);
      forall a | a in info.audioStreams ensures a.bitrate <= b.value.bitrate {
        var j :| 0 <= j < |info.audioStreams| && info.audioStreams[j] == a;
        assert Bitrate(info.audioStreams[j]) <= Bitrate(info.audioStreams[i]);
      }
    }
  }

  /**
    * The video-only candidate has no audio; it is the tallest video-only
    * stream in the band when the band has one, else the tallest video-only
    * stream overall; it exists iff some stream has no audio.
    */
  lemma VideoOnlyCandidate(streams: seq<StreamInfo>, preference: QualityPreference)
    ensures SelectVideoOnly(streams, preference).Some? <==> exists s :: s in streams && !s.hasAudio
    ensures SelectVideoOnly(streams, preference).Some? ==>
      var v := SelectVideoOnly(streams, preference).value;
      && v in streams && !v.hasAudio
      && ((exists s :: s in streams && !s.hasAudio && MatchesPreference(s, preference)) ==>
            && MatchesPreference(v, preference)
            && forall s :: s in streams && !s.hasAudio && MatchesPreference(s, preference) ==> s.height <= v.height)
      && ((forall s :: s in streams && !s.hasAudio ==> !MatchesPreference(s, preference)) ==>
            forall s :: s in streams && !s.hasAudio ==> s.height <= v.height)
  {
    var videoOnly := Filter(streams, IsVideoOnly);
    TallestMatchingIsTallest(videoOnly, preference);
    var inBand := TallestMatching(videoOnly, preference);
    if inBand.None? {
      var all := MaxBy(videoOnly, Height);
      if all.Some? {
        var i := ArgMax(videoOnly, Height);
        assert videoOnly[i] in videoOnly;
        forall s | s in streams && !s.hasAudio ensures s.height <= all.value.height {
          assert s in videoOnly;
          var j :| 0 <= j < |videoOnly| && videoOnly[j] == s;
          assert Height(videoOnly[j]) <= Height(videoOnly[i]);
        }
      } else {
        forall s | s in streams ensures s.hasAudio {
          assert s !in videoOnly;
        }
      }
    } else {
      forall s | s in streams && !s.hasAudio && MatchesPreference(s, preference)
        ensures s.height <= inBand.value.height
      {
        assert s in videoOnly;
      }
    }
  }

  /**
    * For a video output, a video-only candidate strictly taller than the
    * progressive band match (0 when there is none) decides the outcome: the
    * candidate paired with the best audio stream, or nothing when there is
    * no audio stream. (Muxing can also come from the fallback when there is
    * no progressive stream at all; see `ProgressiveUnlessTaller`.)
    */
  lemma VideoOnlyPreferredWhenTaller(info: VideoInfo, preference: QualityPreference, outputFormat: OutputFormat)
    requires outputFormat != MP3
    ensures
      var progressiveMatch := TallestMatching(Filter(info.streams, IsProgressive), preference);
      var videoOnlyMatch := SelectVideoOnly(info.streams, preference);
      VideoOnlyWins(videoOnlyMatch, progressiveMatch) ==>
        Select(info, preference, outputFormat) ==
          if info.audioStreams == [] then None
          else Some(SelectedStreams(videoOnlyMatch, BestAudio(info.audioStreams), true))
  {
  }

  /**
    * The converse: when the video-only candidate is not strictly taller, a
    * progressive stream (band match, else the tallest progressive stream)
    * is chosen alone whenever one exists; only when the catalogue has no
    * progressive stream does the video-only candidate fall back to a mux.
    */
  lemma ProgressiveUnlessTaller(info: VideoInfo, preference: QualityPreference, outputFormat: OutputFormat)
    requires outputFormat != MP3
    ensures
      var progressive := Filter(info.streams, IsProgressive);
      var progressiveMatch := TallestMatching(progressive, preference);
      var videoOnlyMatch := SelectVideoOnly(info.streams, preference);
      !VideoOnlyWins(videoOnlyMatch, progressiveMatch) ==>
        Select(info, preference, outputFormat) ==
          if progressive != [] then
            Some(SelectedStreams(if progressiveMatch.Some? then progressiveMatch else MaxBy(progressive, Height),
                                 None, false))
          else if videoOnlyMatch.None? || info.audioStreams == [] then None
          else Some(SelectedStreams(videoOnlyMatch, BestAudio(info.audioStreams), true))
  {
  }

  /**
    * The video-only candidate winning with no audio stream at all gives no
    * selection, even when a progressive stream exists.
    */
  lemma NoAudioNoMux(info: VideoInfo, preference: QualityPreference, outputFormat: OutputFormat)
    requires outputFormat != MP3 && info.audioStreams == []
    requires VideoOnlyWins(SelectVideoOnly(info.streams, preference),
                           TallestMatching(Filter(info.streams, IsProgressive), preference))
    ensures Select(info, preference, outputFormat).None?
  {
  }

  /**
    * A selection without muxing for a video output is one progressive stream
    * and no audio: the tallest progressive stream in the band, or, when the
    * band has none, the tallest progressive stream of any height.
    */
  lemma ProgressiveSelection(info: VideoInfo, preference: QualityPreference, outputFormat: OutputFormat)
    requires outputFormat != MP3
    requires Select(info, preference, outputFormat).Some?
    requires !Select(info, preference, outputFormat).value.requiresMuxing
    ensures
      var r := Select(info, preference, outputFormat).value;
      var progressive := Filter(info.streams, IsProgressive);
      && r.audio.None? && r.video.Some? && r.video.value.hasAudio
      && r.video == (if TallestMatching(progressive, preference).Some?
                     then TallestMatching(progressive, preference)
                     else MaxBy(progressive, Height))
  {
    var progressive := Filter(info.streams, IsProgressive);
    var progressiveMatch := TallestMatching(progressive, preference);
    var fallback := if progressiveMatch.Some? then progressiveMatch else MaxBy(progressive, Height);
    assert !VideoOnlyWins(SelectVideoOnly(info.streams, preference), progressiveMatch);
    assert fallback.Some?;
    assert Select(info, preference, outputFormat) == Some(SelectedStreams(fallback, None, false));
    assert fallback.value in progressive;
  }

  lemma FilterOne<T(!new)>(x: T, p: T -> bool)
    ensures Filter([x], p) == if p(x) then [x] else []
  {
    assert [x][..0] == [];
  }

  lemma FilterTwo<T(!new)>(x: T, y: T, p: T -> bool)
    ensures Filter([x, y], p) == (if p(x) then [x] else []) + (if p(y) then [y] else [])
  {
    assert [x, y][..1] == [x];
    FilterOne(x, p);
  }

  lemma MaxByOne<T>(x: T, key: T -> int)
    ensures MaxBy([x], key) == Some(x)
  {
    assert [x][..0] == [];
  }

  lemma TallestMatchingOne(x: StreamInfo, preference: QualityPreference)
    ensures TallestMatching([x], preference) == if MatchesPreference(x, preference) then Some(x) else None
  {
    assert [x][..0] == [];
  }

  /** The worked example: 720p progressive plus 1080p video-only plus one audio stream, quality HD_720. */
  lemma Example720pVersus1080p(p720: StreamInfo, v1080: StreamInfo, a: AudioStreamInfo)
    requires p720.hasAudio && p720.height == 720
    requires !v1080.hasAudio && v1080.height == 1080
    ensures
      var info := VideoInfo(VideoId("v"), "t", "a", 0, [p720, v1080], [a], None);
      Select(info, HD_720, MP4) == Some(SelectedStreams(Some(v1080), Some(a), true))
  {
    var info := VideoInfo(VideoId("v"), "t", "a", 0, [p720, v1080], [a], None);
    assert Filter(info.streams, IsProgressive) == [p720] by {
      FilterTwo(p720, v1080, IsProgressive);
    }
    assert TallestMatching([p720], HD_720) == Some(p720) by {
      TallestMatchingOne(p720, HD_720);
    }
    assert SelectVideoOnly(info.streams, HD_720) == Some(v1080) by {
      FilterTwo(p720, v1080, IsVideoOnly);
      assert Filter(info.streams, IsVideoOnly) == [v1080];
      TallestMatchingOne(v1080, HD_720);
      MaxByOne(v1080, Height);
    }
    assert BestAudio(info.audioStreams) == Some(a) by {
      MaxByOne(a, Bitrate);
    }
    VideoOnlyPreferredWhenTaller(info, HD_720, MP4);
  }
}
