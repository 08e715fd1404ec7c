/**
  * The InnerTube client's text handling: extracting a video id from a URL,
  * reading the visitor data from the watch page, assembling the cookie
  * header, and the checks a player response must pass to be accepted.
  *
  * The HTTP requests are not modelled: a page fetch or an API call is given
  * as its result (`None` when the request threw), and the JSON text decoder
  * is a parameter.
  */
module Innertube {

  import opened Wrappers
  import opened Text
  import opened PageParser

  // ---------------------------------------------------------------------------
  // Video ids
  // ---------------------------------------------------------------------------

  /**
    * The six id patterns, by what precedes the id: `[?&]v=`, a literal
    * marker, or the start of the whole input (`^...$`).
    */
  datatype IdPattern = QueryParam | After(marker: string) | WholeInput
  {
    function MarkerLength(): nat
    {
      match this
      case QueryParam => 3
      case After(m) => |m|
      case WholeInput => 0
    }
  }

  /** The patterns in the order they are tried. */
  const Patterns: seq<IdPattern> :=
    [QueryParam, After("youtu.be/"), After("/embed/"), After("/shorts/"), After("/v/"), WholeInput]

  /**
    * What the JVM's `$` accepts after the last character matched: the end of
    * the input, or one final line terminator.
    */
  predicate IsFinalTerminator(t: string)
  {
    t == "" || t == "\n" || t == "\r" || t == "\r\n" || t == "\U{0085}" || t == "\U{2028}" || t == "\U{2029}"
  }

  /** The marker of `p` occurs at `i`. */
  predicate MarkerAt(s: string, i: int, p: IdPattern)
  {
    match p
    case QueryParam => 0 <= i && i + 3 <= |s| && (s[i] == '?' || s[i] == '&') && s[i + 1] == 'v' && s[i + 2] == '='
    case After(m) => StartsAt(s, i, m)
    case WholeInput => i == 0
  }

  /** Pattern `p` matches `s` at `i`: its marker, then an id (then the end, for `^...$`). */
  predicate MatchesAt(s: string, i: int, p: IdPattern)
  {
    && MarkerAt(s, i, p)
    && 0 <= i && i + p.MarkerLength() + 11 <= |s|
    && IsVideoId(s[i + p.MarkerLength()..i + p.MarkerLength() + 11])
    && (p.WholeInput? ==> IsFinalTerminator(s[11..]))
  }

  /** `Regex.find`: the leftmost index at or after `from` where `p` matches, or -1. */
  function FindMatch(s: string, p: IdPattern, from: nat): (r: int)
    ensures r == -1 <==> forall i :: from <= i <= |s| ==> !MatchesAt(s, i, p)
    ensures r != -1 ==> from <= r && MatchesAt(s, r, p)
    ensures r != -1 ==> forall i :: from <= i < r ==> !MatchesAt(s, i, p)
    decreases |s| + 1 - from
  {
    if from > |s| then -1
    else if MatchesAt(s, from, p) then from
    else FindMatch(s, p, from + 1)
  }

  /** The id captured by the leftmost match of `p`, if any. */
  function CapturedId(s: string, p: IdPattern): (r: Option<string>)
    ensures r.Some? ==> IsVideoId(r.value)
    ensures r.None? <==> FindMatch(s, p, 0) == -1
  {
    var i := FindMatch(s, p, 0);
    if i == -1 then None else Some(s[i + p.MarkerLength()..i + p.MarkerLength() + 11])
  }

  /** The id of the first pattern of `ps` that matches. */
  function FirstCapture(s: string, ps: seq<IdPattern>): Option<string>
  {
    if ps == [] then None
    else if CapturedId(s, ps[0]).Some? then CapturedId(s, ps[0])
    else FirstCapture(s, ps[1..])
  }

  /** `extractVideoId`: try each pattern in order and return the first capture. */
  method ExtractVideoId(url: string) returns (r: Option<string>)
    ensures r == FirstCapture(url, Patterns)
  {
    var k := 0;
    while k < |Patterns|
      invariant 0 <= k <= |Patterns|
      invariant FirstCapture(url, Patterns) == FirstCapture(url, Patterns[k..])
    {
      var m := CapturedId(url, Patterns[k]);
      if m.Some? {
        return m;
      }
      assert Patterns[k..][1..] == Patterns[k + 1..];
      k := k + 1;
    }
    return None;
  }

  /** Any extracted id is eleven id characters. */
  lemma {:induction false} FirstCaptureIsVideoId(s: string, ps: seq<IdPattern>)
    ensures FirstCapture(s, ps).Some? ==> IsVideoId(FirstCapture(s, ps).value)
    decreases |ps|
  {
    if ps != [] && CapturedId(s, ps[0]).None? {
      FirstCaptureIsVideoId(s, ps[1..]);
    }
  }

  /**
    * The result is the capture of pattern `j` exactly when `j` matches and no
    * earlier pattern does; it is `None` exactly when no pattern matches.
    */
  lemma {:induction false} FirstCaptureIsFirst(s: string, ps: seq<IdPattern>, j: nat)
    requires j < |ps|
    requires FindMatch(s, ps[j], 0) != -1
    requires forall k :: 0 <= k < j ==> FindMatch(s, ps[k], 0) == -1
    ensures FirstCapture(s, ps) == CapturedId(s, ps[j])
    decreases j
  {
    if j > 0 {
      assert FindMatch(s, ps[0], 0) == -1;
      forall k | 0 <= k < j - 1 ensures FindMatch(s, ps[1..][k], 0) == -1 {
        assert ps[1..][k] == ps[k + 1];
      }
      FirstCaptureIsFirst(s, ps[1..], j - 1);
    }
  }

  lemma {:induction false} FirstCaptureNone(s: string, ps: seq<IdPattern>)
    ensures FirstCapture(s, ps).None? <==> forall k :: 0 <= k < |ps| ==> FindMatch(s, ps[k], 0) == -1
    decreases |ps|
  {
    if ps != [] {
      FirstCaptureNone(s, ps[1..]);
      assert forall k :: 1 <= k < |ps| ==> ps[k] == ps[1..][k - 1];
    }
  }

  /** The five markers cannot occur in a run of id characters: each holds a '?', '&' or '/'. */
  lemma MarkerNotInId(t: string, i: int, p: IdPattern)
    requires p in Patterns[..5]
    requires forall k :: 0 <= k < |t| ==> IsIdChar(t[k])
    ensures !MarkerAt(t, i, p)
  {
    match p
    case QueryParam =>
      if 0 <= i < |t| {
        assert IsIdChar(t[i]);
      }
    case After(m) =>
      if 0 <= i && i + |m| <= |t| {
        assert m[|m| - 1] == '/';
        assert t[i..i + |m|][|m| - 1] == t[i + |m| - 1];
        assert IsIdChar(t[i + |m| - 1]);
      }
    case WholeInput =>
  }

  /** A bare id is its own id: no marker can occur in it, and `^...$` matches. */
  lemma BareIdIsItself(id: string)
    requires IsVideoId(id)
    ensures FirstCapture(id, Patterns) == Some(id)
  {
    forall k | 0 <= k < 5 ensures FindMatch(id, Patterns[k], 0) == -1 {
      assert Patterns[k] in Patterns[..5];
      forall i | 0 <= i <= |id| ensures !MatchesAt(id, i, Patterns[k]) {
        MarkerNotInId(id, i, Patterns[k]);
      }
    }
    assert MatchesAt(id, 0, WholeInput) by {
      assert id[0..11] == id;
      assert id[11..] == "";
    }
    FirstCaptureIsFirst(id, Patterns, 5);
  }

  /**
    * A watch URL `a?v=<id>b` whose part before the query has no '?' or '&'
    * yields `id`, whatever follows it.
    */
  lemma WatchUrlId(a: string, id: string, b: string)
    requires forall k :: 0 <= k < |a| ==> a[k] != '?' && a[k] != '&'
    requires IsVideoId(id)
    ensures FirstCapture(a + "?v=" + id + b, Patterns) == Some(id)
  {
    var s := a + "?v=" + id + b;
    var n := |a|;
    assert s[n] == '?' && s[n + 1] == 'v' && s[n + 2] == '=';
    assert s[n + 3..n + 14] == id;
    assert MatchesAt(s, n, QueryParam);
    forall i | 0 <= i < n ensures !MatchesAt(s, i, QueryParam) {
      assert s[i] == a[i];
    }
    assert FindMatch(s, QueryParam, 0) == n;
    FirstCaptureIsFirst(s, Patterns, 0);
  }

  // ---------------------------------------------------------------------------
  // Session data
  // ---------------------------------------------------------------------------

  const VisitorKey: string := "\"VISITOR_DATA\""

  /**
    * The regular expression `"VISITOR_DATA"\s*:\s*"([^"]+)"` tried at `i`:
    * the captured value, or `None`.
    */
  function VisitorMatchAt(html: string, i: nat): (r: Option<string>)
    ensures r.Some? ==> StartsAt(html, i, VisitorKey)
    ensures r.Some? ==> r.value != [] && '"' !in r.value
  {
    if !StartsAt(html, i, VisitorKey) then None
    else
      var colon := RunEnd(html, i + |VisitorKey|, IsRegexSpace);
      if colon == |html| || html[colon] != ':' then None
      else
        var quote := RunEnd(html, colon + 1, IsRegexSpace);
        if quote == |html| || html[quote] != '"' then None
        else
          var close := IndexOfChar(html, '"', quote + 1);
          if close == -1 || close == quote + 1 then None
          else Some(html[quote + 1..close])
  }

  /** `VISITOR_DATA_RE.find(html)`: the leftmost match at or after `from`. */
  function VisitorDataFrom(html: string, from: nat): (r: Option<string>)
    ensures r.Some? ==> r.value != [] && '"' !in r.value
    ensures r.None? ==> forall i :: from <= i <= |html| ==> VisitorMatchAt(html, i).None?
    decreases |html| + 1 - from
  {
    if from > |html| then None
    else if VisitorMatchAt(html, from).Some? then VisitorMatchAt(html, from)
    else VisitorDataFrom(html, from + 1)
  }

  function VisitorData(html: string): Option<string>
  {
    VisitorDataFrom(html, 0)
  }

  /** A page `pre "VISITOR_DATA":"v" post` with no quote in `pre` yields `v`. */
  lemma VisitorDataRoundTrip(pre: string, v: string, post: string)
    requires '"' !in pre
    requires v != [] && '"' !in v
    ensures VisitorData(pre + VisitorKey + ":\"" + v + "\"" + post) == Some(v)
  {
    var html := pre + VisitorKey + ":\"" + v + "\"" + post;
    var i := |pre|;
    assert html[i..i + |VisitorKey|] == VisitorKey;
    var colon := i + |VisitorKey|;
    assert html[colon] == ':';
    assert RunEnd(html, colon, IsRegexSpace) == colon;
    assert html[colon + 1] == '"';
    assert RunEnd(html, colon + 1, IsRegexSpace) == colon + 1;
    var close := colon + 2 + |v|;
    assert html[close] == '"';
    forall k | colon + 2 <= k < close ensures html[k] != '"' {
      assert html[k] == v[k - colon - 2];
    }
    assert IndexOfChar(html, '"', colon + 2) == close;
    assert html[colon + 2..close] == v;
    assert VisitorMatchAt(html, i) == Some(v);
    forall k | 0 <= k < i ensures VisitorMatchAt(html, k).None? {
      assert html[k] == pre[k];
      assert html[k..k + |VisitorKey|][0] == html[k];
    }
    VisitorDataFirst(html, 0, i);
  }

  /** The leftmost match is found when nothing matches before it. */
  lemma {:induction false} VisitorDataFirst(html: string, from: nat, i: nat)
    requires from <= i <= |html|
    requires VisitorMatchAt(html, i).Some?
    requires forall k :: from <= k < i ==> VisitorMatchAt(html, k).None?
    ensures VisitorDataFrom(html, from) == VisitorMatchAt(html, i)
    decreases i - from
  {
    if from < i {
      assert VisitorMatchAt(html, from).None?;
      VisitorDataFirst(html, from + 1, i);
    }
  }

  /** A `Set-Cookie` value reduced to its `name=value` part, if it has one. */
  function CookiePair(raw: string): (r: Option<string>)
    ensures r.Some? ==> ';' !in r.value && '=' in r.value && Trim(r.value) == r.value
    ensures r.None? <==> '=' !in Trim(SubstringBefore(raw, ';'))
  {
    var pair := Trim(SubstringBefore(raw, ';'));
    TrimOfTrimmed(pair);
    if '=' in pair then Some(pair) else None
  }

  /** `mapNotNull` of `CookiePair` over the `Set-Cookie` headers, in order. */
  function CookiePairs(setCookies: seq<string>): (r: seq<string>)
    ensures |r| <= |setCookies|
    ensures forall k :: 0 <= k < |r| ==> ';' !in r[k] && '=' in r[k] && Trim(r[k]) == r[k]
  {
    if setCookies == [] then []
    else
      var rest := CookiePairs(setCookies[1..]);
      match CookiePair(setCookies[0])
      case Some(p) => [p] + rest
      case None => rest
  }

  const ConsentCookies: seq<string> := ["CONSENT=YES+1", "SOCS=CAI"]

  /** The `Cookie` header sent with API calls. */
  function CookieHeader(setCookies: seq<string>): string
  {
    Join(ConsentCookies + CookiePairs(setCookies), "; ")
  }

  /** Every part but the first, preceded by the space of the separator. */
  function Spaced(parts: seq<string>): (r: seq<string>)
    requires parts != []
    ensures |r| == |parts| && r[0] == parts[0]
    ensures forall k :: 1 <= k < |parts| ==> r[k] == " " + parts[k]
  {
    [parts[0]] + seq(|parts| - 1, k requires 0 <= k < |parts| - 1 => " " + parts[k + 1])
  }

  lemma {:induction false} JoinSpaced(parts: seq<string>)
    requires parts != []
    ensures Join(parts, "; ") == Join(Spaced(parts), ";")
    decreases |parts|
  {
    if |parts| > 1 {
      var rest := parts[1..];
      JoinSpaced(rest);
      var sr := Spaced(rest);
      var sp := Spaced(parts);
      assert sp[1..] == [" " + rest[0]] + sr[1..];
      JoinHead(" ", sr);
      assert Join(sp[1..], ";") == " " + Join(sr, ";");
    }
  }

  /** Prefixing the first part prefixes the joined text. */
  lemma JoinHead(pre: string, parts: seq<string>)
    requires parts != []
    ensures Join([pre + parts[0]] + parts[1..], ";") == pre + Join(parts, ";")
  {
    var q := [pre + parts[0]] + parts[1..];
    assert q[1..] == parts[1..];
  }

  /**
    * The header splits back at ';' into the two consent cookies and the
    * kept cookie pairs, each after the first preceded by one space.
    */
  lemma CookieHeaderSplits(setCookies: seq<string>)
    ensures Split(CookieHeader(setCookies), ';') == Spaced(ConsentCookies + CookiePairs(setCookies))
  {
    var parts := ConsentCookies + CookiePairs(setCookies);
    JoinSpaced(parts);
    var sp := Spaced(parts);
    forall k | 0 <= k < |sp| ensures ';' !in sp[k] {
      if k >= 2 {
        assert parts[k] == CookiePairs(setCookies)[k - 2];
      }
    }
    JoinSplit(sp, ';');
  }

  /** The result of the watch-page request: its body and its `Set-Cookie` headers. */
  datatype PageResponse = PageResponse(html: string, setCookies: seq<string>)

  datatype SessionData = SessionData(visitorData: string, cookies: string)

  /** `fetchSessionData`; `page` is `None` when the request threw. */
  function FetchSessionData(page: Option<PageResponse>): (r: Option<SessionData>)
    ensures r.Some? <==> page.Some? && VisitorData(page.value.html).Some?
    ensures r.Some? ==> r.value.visitorData == VisitorData(page.value.html).value
    ensures r.Some? ==> r.value.cookies == CookieHeader(page.value.setCookies)
  {
    match page
    case None => None
    case Some(p) =>
      match VisitorData(p.html)
      case None => None
      case Some(v) => Some(SessionData(v, CookieHeader(p.setCookies)))
  }

  // ---------------------------------------------------------------------------
  // Player response acceptance
  // ---------------------------------------------------------------------------

  /**
    * The result of the player request: whether the status is 2xx, and the
    * body as decoded JSON (`None` when the text is not JSON).
    */
  datatype ApiResponse = ApiResponse(success: bool, body: Option<Json>)

  /** `result["playabilityStatus"]?.jsonObject?.get(key)?.jsonPrimitive?.contentOrNull`. */
  function PlayabilityField(result: map<string, Json>, key: string): Access<string>
  {
    match ObjectAt(result, "playabilityStatus")
    case Threw => Threw
    case Absent => Absent
    case Found(ps) => StringAt(ps, key)
  }

  /** `it.jsonObject["url"]?.jsonPrimitive?.contentOrNull` evaluates without throwing. */
  predicate Countable(e: Json)
  {
    e.JObj? && !StringAt(e.fields, "url").Threw?
  }

  /** The checks `fetchPlayerResponse` makes on the decoded body object. */
  function CheckedResult(result: map<string, Json>): (r: Option<map<string, Json>>)
    ensures r.Some? ==> r.value == result
  {
    var status := PlayabilityField(result, "status");
    var reason := PlayabilityField(result, "reason");
    if status.Threw? || reason.Threw? || status != Found("OK") then None
    else match ObjectAt(result, "streamingData")
      case Threw => None
      case Absent => None
      case Found(sd) =>
        var formats := ArrayAt(sd, "formats");
        var adaptive := ArrayAt(sd, "adaptiveFormats");
        if formats.Threw? || adaptive.Threw? then None
        else
          var all := formats.ToOption().GetOr([]) + adaptive.ToOption().GetOr([]);
          if all == [] || exists e :: e in all && !Countable(e) then None
          else Some(result)
  }

  /**
    * `fetchPlayerResponse`; `response` is `None` when the request threw.
    * An exception anywhere in the checks gives `None`, like the source's catch.
    */
  function FetchPlayerResponse(response: Option<ApiResponse>): (r: Option<map<string, Json>>)
    ensures r.Some? ==> response.Some? && response.value.success && response.value.body == Some(JObj(r.value))
    ensures r.Some? ==> PlayabilityField(r.value, "status") == Found("OK")
    ensures r.Some? ==> FormatEntries(r.value).Found? && FormatEntries(r.value).value != []
    ensures r.Some? ==> forall e :: e in FormatEntries(r.value).value ==> Countable(e)
  {
    if response.None? || !response.value.success then None
    else match response.value.body
      case Some(JObj(result)) => CheckedResult(result)
      case _ => None
  }

  /**
    * The checks are also sufficient: a 2xx JSON object with status "OK",
    * a readable reason, a `streamingData` object and a non-empty list of
    * countable entries is accepted as it is.
    */
  lemma AcceptedWhenChecksPass(result: map<string, Json>)
    requires PlayabilityField(result, "status") == Found("OK")
    requires !PlayabilityField(result, "reason").Threw?
    requires ObjectAt(result, "streamingData").Found?
    requires FormatEntries(result).Found? && FormatEntries(result).value != []
    requires forall e :: e in FormatEntries(result).value ==> Countable(e)
    ensures FetchPlayerResponse(Some(ApiResponse(true, Some(JObj(result))))) == Some(result)
  {
  }

  /**
    * A non-2xx status, a body that is not a JSON object, a status other than
    * "OK", a missing `streamingData`, or an empty formats list is rejected.
    */
  lemma RejectedCases(response: ApiResponse)
    ensures !response.success ==> FetchPlayerResponse(Some(response)).None?
    ensures (response.body.None? || !response.body.value.JObj?) ==> FetchPlayerResponse(Some(response)).None?
    ensures (response.body.Some? && response.body.value.JObj? &&
             PlayabilityField(response.body.value.fields, "status") != Found("OK")) ==>
              FetchPlayerResponse(Some(response)).None?
    ensures (response.body.Some? && response.body.value.JObj? &&
             !ObjectAt(response.body.value.fields, "streamingData").Found?) ==>
              FetchPlayerResponse(Some(response)).None?
    ensures (response.body.Some? && response.body.value.JObj? &&
             FormatEntries(response.body.value.fields) == Found([])) ==>
              FetchPlayerResponse(Some(response)).None?
  {
  }
}
