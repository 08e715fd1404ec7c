/**
  * The playlist repository: the playlist id taken from a URL, the browse-API
  * strategy with its own de-duplicated id scan, and the fall-back to the
  * playlist page and its parser.  The network is one oracle from request to
  * reply; an exception is a reply of its own.
  */
module PlaylistRepository {
  import opened Wrappers
  import opened Text
  import opened Domain
  import opened PlaylistParser

  // ---------------------------------------------------------------------------
  // extractPlaylistId: [?&]list=([a-zA-Z0-9_-]+)
  // ---------------------------------------------------------------------------

  const ListKey: string := "list="

  /** A match of the pattern starting at `i`: '?' or '&', then `list=`, then at least one id character. */
  predicate ListParamAt(url: string, i: nat)
  {
    i + 6 < |url| && (url[i] == '?' || url[i] == '&') && StartsAt(url, i + 1, ListKey) && IsIdChar(url[i + 6])
  }

  /** The leftmost match at or after `from`, or -1. */
  function FirstListParam(url: string, from: nat): (k: int)
    ensures k == -1 <==> forall i :: from <= i < |url| ==> !ListParamAt(url, i)
    ensures k != -1 ==> from <= k < |url| && ListParamAt(url, k)
    ensures k != -1 ==> forall i :: from <= i < k ==> !ListParamAt(url, i)
    decreases |url| - from
  {
    if from >= |url| then -1
    else if ListParamAt(url, from) then from
    else FirstListParam(url, from + 1)
  }

  /** `extractPlaylistId`: the greedy id-character run of the leftmost match. */
  function ExtractPlaylistId(url: string): (r: Option<string>)
    ensures r.None? <==> forall i :: 0 <= i < |url| ==> !ListParamAt(url, i)
    ensures r.Some? ==> r.value != [] && forall k :: 0 <= k < |r.value| ==> IsIdChar(r.value[k])
  {
    var k := FirstListParam(url, 0);
    if k == -1 then None else Some(url[k + 6..RunEnd(url, k + 6, IsIdChar)])
  }

  /**
    * The id is the whole run after the leftmost `?list=` or `&list=`: it
    * starts right after that key, nothing matches earlier, and the character
    * after it, if any, is not an id character.
    */
  lemma ExtractPlaylistIdLeftmost(url: string)
    requires ExtractPlaylistId(url).Some?
    ensures var k := FirstListParam(url, 0);
      var id := ExtractPlaylistId(url).value;
      && 0 <= k && (url[k] == '?' || url[k] == '&') && StartsAt(url, k + 1, ListKey)
      && (forall i :: 0 <= i < k ==> !ListParamAt(url, i))
      && k + 6 + |id| <= |url| && url[k + 6..k + 6 + |id|] == id
      && (k + 6 + |id| == |url| || !IsIdChar(url[k + 6 + |id|]))
  {
  }

  /** A URL whose first '?' or '&' opens `list=<id>`, with `id` ending the run, yields `id`. */
  lemma {:induction false} ExtractPlaylistIdOf(pre: string, sep: char, id: string, post: string)
    requires '?' !in pre && '&' !in pre
    requires sep == '?' || sep == '&'
    requires id != [] && forall k :: 0 <= k < |id| ==> IsIdChar(id[k])
    requires post == [] || !IsIdChar(post[0])
    ensures ExtractPlaylistId(pre + [sep] + ListKey + id + post) == Some(id)
  {
    var url := pre + [sep] + ListKey + id + post;
    var k := |pre|;
    assert url[k] == sep;
    assert url[k + 1..k + 6] == ListKey;
    assert url[k + 6..k + 6 + |id|] == id;
    assert url[k + 6] == id[0];
    assert ListParamAt(url, k);
    forall i | 0 <= i < k ensures !ListParamAt(url, i) {
      assert url[i] == pre[i];
    }
    assert FirstListParam(url, 0) == k;
    forall j | k + 6 <= j < k + 6 + |id| ensures IsIdChar(url[j]) {
      assert url[j] == id[j - k - 6];
    }
    RunEndOfRun(url, k + 6, k + 6 + |id|);
  }

  /** A run of id characters from `i` to `e`, ended by the text's end or another character, is the whole run. */
  lemma {:induction false} RunEndOfRun(s: string, i: nat, e: nat)
    requires i <= e <= |s|
    requires forall j :: i <= j < e ==> IsIdChar(s[j])
    requires e == |s| || !IsIdChar(s[e])
    ensures RunEnd(s, i, IsIdChar) == e
    decreases e - i
  {
    if i < e {
      RunEndOfRun(s, i + 1, e);
    }
  }

  // ---------------------------------------------------------------------------
  // The network oracle
  // ---------------------------------------------------------------------------

  /** A request: the browse-API POST (key and browse id), or the GET of a page. */
  datatype Request = Browse(key: string, browseId: string) | Page(url: string)

  /** What a request produced: an exception with its message, or a status and a body. */
  datatype Reply = Threw(cause: string) | Replied(status: int, body: string)

  predicate IsSuccess(status: int)
  {
    200 <= status <= 299
  }

  const PlaylistPageBase: string := "https://www.youtube.com/playlist"

  function PlaylistPageUrl(playlistId: string): string
  {
    PlaylistPageBase + "?" + ListKey + playlistId
  }

  /** The page URL the fall-back fetches carries the playlist id back out. */
  lemma PlaylistPageUrlRoundTrip(playlistId: string)
    requires playlistId != [] && forall k :: 0 <= k < |playlistId| ==> IsIdChar(playlistId[k])
    ensures ExtractPlaylistId(PlaylistPageUrl(playlistId)) == Some(playlistId)
  {
    assert '?' !in PlaylistPageBase && '&' !in PlaylistPageBase;
    ExtractPlaylistIdOf(PlaylistPageBase, '?', playlistId, []);
    assert PlaylistPageBase + ['?'] + ListKey + playlistId + [] == PlaylistPageUrl(playlistId);
  }

  // ---------------------------------------------------------------------------
  // fetchViaInnertube
  // ---------------------------------------------------------------------------

  /** The browse result: None when the request threw, otherwise the ids found. */
  function BrowseIds(apiKey: Option<string>, reply: Reply): Option<seq<VideoId>>
  {
    if apiKey.None? then Some([])
    else if reply.Threw? then None
    else if !IsSuccess(reply.status) then Some([])
    else Some(ToVideoIds(Dedup(FindAll(reply.body, Broad, 0))))
  }

  /** `fetchViaInnertube`: the body's `"videoId"` entries gathered into a first-seen-order set. */
  method FetchViaInnertube(playlistId: string, apiKey: Option<string>, net: Request -> Reply) returns (r: Option<seq<VideoId>>)
    ensures apiKey.Some? ==> r == BrowseIds(apiKey, net(Browse(apiKey.value, "VL" + playlistId)))
    ensures apiKey.None? ==> r == Some([])
  {
    if apiKey.None? {
      return Some([]);
    }
    var reply := net(Browse(apiKey.value, "VL" + playlistId));
    if reply.Threw? {
      return None;
    }
    if !IsSuccess(reply.status) {
      return Some([]);
    }
    var found := FindAll(reply.body, Broad, 0);
    assert [] + found == found;
    var ids := AddEach([], found);
    return Some(ToVideoIds(ids));
  }

  /** Browse ids are eleven id characters each, and none is repeated. */
  lemma BrowseIdsWellFormed(apiKey: Option<string>, reply: Reply)
    requires BrowseIds(apiKey, reply).Some?
    ensures var v := BrowseIds(apiKey, reply).value;
      && (forall k :: 0 <= k < |v| ==> IsVideoId(v[k].value))
      && (forall i, j :: 0 <= i < j < |v| ==> v[i] != v[j])
  {
    if apiKey.Some? && reply.Replied? && IsSuccess(reply.status) {
      var found := FindAll(reply.body, Broad, 0);
      FindAllIds(reply.body, Broad, 0);
      var d := Dedup(found);
      forall k | 0 <= k < |d| ensures IsVideoId(d[k]) {
        assert d[k] in found;
        var j :| 0 <= j < |found| && found[j] == d[k];
      }
    }
  }

  /** Without a key, or with an unsuccessful status, the browse strategy finds nothing. */
  lemma BrowseIdsEmpty(apiKey: Option<string>, reply: Reply)
    ensures apiKey.None? ==> BrowseIds(apiKey, reply) == Some([])
    ensures apiKey.Some? && reply.Replied? && !IsSuccess(reply.status) ==> BrowseIds(apiKey, reply) == Some([])
    ensures apiKey.Some? && reply.Replied? && IsSuccess(reply.status) ==>
      (BrowseIds(apiKey, reply) == Some([]) <==> forall i :: 0 <= i <= |reply.body| ==> MatchAt(reply.body, i, Broad).None?)
  {
    if apiKey.Some? && reply.Replied? && IsSuccess(reply.status) {
      FindAllEmpty(reply.body, Broad, 0);
    }
  }

  // ---------------------------------------------------------------------------
  // fetchPlaylistIds
  // ---------------------------------------------------------------------------

  /** The requests `fetchPlaylistIds` sends, in order. */
  function Requests(url: string, apiKey: Option<string>, net: Request -> Reply): seq<Request>
  {
    match ExtractPlaylistId(url)
    case None => []
    case Some(id) =>
      var browse := if apiKey.Some? then [Browse(apiKey.value, "VL" + id)] else [];
      var ids := if apiKey.Some? then BrowseIds(apiKey, net(Browse(apiKey.value, "VL" + id))) else Some([]);
      if ids.Some? && ids.value != [] then browse else browse + [Page(PlaylistPageUrl(id))]
  }

  /** The outcome of `fetchPlaylistIds`. */
  function PlaylistFetch(url: string, apiKey: Option<string>, net: Request -> Reply): Outcome<seq<VideoId>>
  {
    match ExtractPlaylistId(url)
    case None => Failure(InvalidUrl(url))
    case Some(id) =>
      var ids := if apiKey.Some? then BrowseIds(apiKey, net(Browse(apiKey.value, "VL" + id))) else Some([]);
      if ids.Some? && ids.value != [] then Success(ids.value)
      else match net(Page(PlaylistPageUrl(id)))
        case Threw(cause) => Failure(NetworkFailure(cause))
        case Replied(_, html) => PlaylistIds(html)
  }

  /** `fetchPlaylistIds`: the browse strategy first, the playlist page when it finds nothing or throws. */
  method FetchPlaylistIds(url: string, apiKey: Option<string>, net: Request -> Reply)
    returns (r: Outcome<seq<VideoId>>, sent: seq<Request>)
    ensures r == PlaylistFetch(url, apiKey, net)
    ensures sent == Requests(url, apiKey, net)
  {
    var playlistId := ExtractPlaylistId(url);
    if playlistId.None? {
      return Failure(InvalidUrl(url)), [];
    }
    var id := playlistId.value;
    sent := if apiKey.Some? then [Browse(apiKey.value, "VL" + id)] else [];
    var browsed := FetchViaInnertube(id, apiKey, net);
    if browsed.Some? && browsed.value != [] {
      return Success(browsed.value), sent;
    }
    var pageUrl := PlaylistPageUrl(id);
    sent := sent + [Page(pageUrl)];
    var reply := net(Page(pageUrl));
    if reply.Threw? {
      return Failure(NetworkFailure(reply.cause)), sent;
    }
    r := ParsePlaylistIds(reply.body);
  }

  /** A URL without a playlist id fails with `InvalidUrl(url)` and sends nothing, whatever the network would say. */
  lemma InvalidUrlSendsNothing(url: string, apiKey: Option<string>, net: Request -> Reply)
    requires forall i :: 0 <= i < |url| ==> !ListParamAt(url, i)
    ensures PlaylistFetch(url, apiKey, net) == Failure(InvalidUrl(url))
    ensures Requests(url, apiKey, net) == []
  {
  }

  /** A non-empty browse result is returned as is, and the page is never fetched. */
  lemma BrowseResultWins(url: string, key: string, net: Request -> Reply)
    requires ExtractPlaylistId(url).Some?
    requires var ids := BrowseIds(Some(key), net(Browse(key, "VL" + ExtractPlaylistId(url).value)));
      ids.Some? && ids.value != []
    ensures PlaylistFetch(url, Some(key), net) ==
      Success(BrowseIds(Some(key), net(Browse(key, "VL" + ExtractPlaylistId(url).value))).value)
    ensures Requests(url, Some(key), net) == [Browse(key, "VL" + ExtractPlaylistId(url).value)]
    ensures forall q :: q in Requests(url, Some(key), net) ==> !q.Page?
  {
  }

  /**
    * When the browse strategy finds nothing or throws, the result is the
    * page parser's on the playlist page, or `NetworkFailure` when that fetch
    * throws; the page request is the last one sent.
    */
  lemma PageFallback(url: string, apiKey: Option<string>, net: Request -> Reply)
    requires ExtractPlaylistId(url).Some?
    requires apiKey.Some? ==>
      var ids := BrowseIds(apiKey, net(Browse(apiKey.value, "VL" + ExtractPlaylistId(url).value)));
      ids.None? || ids.value == []
    ensures var page := PlaylistPageUrl(ExtractPlaylistId(url).value);
      && Requests(url, apiKey, net) != []
      && Requests(url, apiKey, net)[|Requests(url, apiKey, net)| - 1] == Page(page)
      && (net(Page(page)).Threw? ==> PlaylistFetch(url, apiKey, net) == Failure(NetworkFailure(net(Page(page)).cause)))
      && (net(Page(page)).Replied? ==> PlaylistFetch(url, apiKey, net) == PlaylistIds(net(Page(page)).body))
  {
  }

  /** A successful fetch returns eleven-character ids without repeats, whichever strategy found them. */
  lemma PlaylistFetchWellFormed(url: string, apiKey: Option<string>, net: Request -> Reply)
    requires PlaylistFetch(url, apiKey, net).Success?
    ensures var v := PlaylistFetch(url, apiKey, net).value;
      && v != []
      && (forall k :: 0 <= k < |v| ==> IsVideoId(v[k].value))
      && (forall i, j :: 0 <= i < j < |v| ==> v[i] != v[j])
  {
    var id := ExtractPlaylistId(url).value;
    if apiKey.Some? && BrowseIds(apiKey, net(Browse(apiKey.value, "VL" + id))).Some?
      && BrowseIds(apiKey, net(Browse(apiKey.value, "VL" + id))).value != [] {
      BrowseIdsWellFormed(apiKey, net(Browse(apiKey.value, "VL" + id)));
    } else {
      var html := net(Page(PlaylistPageUrl(id))).body;
      PlaylistIdsWellFormed(html);
    }
  }
}
