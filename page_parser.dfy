/**
  * Metadata parsing: the player response of a watch page, given as a JSON
  * value, becomes a `VideoInfo`. Also the text scanners around it: locating
  * the embedded player response, brace matching, signature-cipher splitting
  * and percent decoding.
  *
  * JSON is a value here, not text; the JSON text decoder is a parameter.
  */
module PageParser {

  import opened Wrappers
  import opened Text
  import opened Domain

  // ---------------------------------------------------------------------------
  // JSON values and the accessors used on them
  // ---------------------------------------------------------------------------

  /**
    * A JSON element. `JPrim` is a string or literal with its content text
    * (`isString` tells which); `JNull` is the JSON null.
    */
  datatype Json =
    | JNull
    | JPrim(content: string, isString: bool)
    | JArr(items: seq<Json>)
    | JObj(fields: map<string, Json>)

  /**
    * The outcome of an accessor chain: Kotlin `null`, a value, or an
    * exception (an element of the wrong kind, e.g. `.jsonObject` on an array).
    */
  datatype Access<+T> = Absent | Found(value: T) | Threw
  {
    function ToOption(): Option<T>
    {
      if Found? then Some(value) else None
    }
  }

  /** `obj[key]?.jsonObject`. */
  function ObjectAt(obj: map<string, Json>, key: string): (r: Access<map<string, Json>>)
    ensures r.Absent? <==> key !in obj
    ensures r.Found? <==> key in obj && obj[key].JObj?
  {
    if key !in obj then Absent
    else match obj[key]
      case JObj(m) => Found(m)
      case _ => Threw
  }

  /** `obj[key]?.jsonArray`. */
  function ArrayAt(obj: map<string, Json>, key: string): (r: Access<seq<Json>>)
    ensures r.Absent? <==> key !in obj
    ensures r.Found? <==> key in obj && obj[key].JArr?
  {
    if key !in obj then Absent
    else match obj[key]
      case JArr(items) => Found(items)
      case _ => Threw
  }

  /** `obj[key]?.jsonPrimitive?.contentOrNull`: a JSON null reads as absent. */
  function StringAt(obj: map<string, Json>, key: string): (r: Access<string>)
    ensures r.Threw? <==> key in obj && (obj[key].JArr? || obj[key].JObj?)
    ensures r.Found? <==> key in obj && obj[key].JPrim?
  {
    if key !in obj then Absent
    else match obj[key]
      case JNull => Absent
      case JPrim(content, _) => Found(content)
      case _ => Threw
  }

  /**
    * `obj[key]?.jsonPrimitive?.intOrNull` (or `longOrNull` for the Long
    * range): the content read as an integer, whether it was written as a
    * number or as a string.
    */
  function IntegerAt(obj: map<string, Json>, key: string, lo: int, hi: int): (r: Access<int>)
    ensures r.Threw? <==> key in obj && (obj[key].JArr? || obj[key].JObj?)
    ensures r.Found? ==> lo <= r.value <= hi
  {
    match StringAt(obj, key)
    case Threw => Threw
    case Absent => Absent
    case Found(content) =>
      var n := ParseInteger(content, 10, lo, hi);
      if n.Some? then Found(n.value) else Absent
  }

  function IntAt(obj: map<string, Json>, key: string): Access<int>
  {
    IntegerAt(obj, key, INT_MIN, INT_MAX)
  }

  function LongAt(obj: map<string, Json>, key: string): Access<int>
  {
    IntegerAt(obj, key, LONG_MIN, LONG_MAX)
  }

  // ---------------------------------------------------------------------------
  // Percent decoding
  // ---------------------------------------------------------------------------

  /**
    * `"ab".toIntOrNull(16)` for a two-character string: an optional sign and
    * one hex digit, or two hex digits.
    */
  function HexCode(a: char, b: char): (r: Option<int>)
    ensures r.Some? ==> -15 <= r.value <= 255
  {
    if a == '-' || a == '+' then
      if DigitValue(b, 16) >= 0 then
        Some(if a == '-' then 0 - DigitValue(b, 16) else DigitValue(b, 16))
      else None
    else if DigitValue(a, 16) >= 0 && DigitValue(b, 16) >= 0 then
      Some(DigitValue(a, 16) * 16 + DigitValue(b, 16))
    else None
  }

  /** `HexCode` is Kotlin's `toIntOrNull(16)` on the two characters. */
  lemma HexCodeIsParse(a: char, b: char)
    ensures HexCode(a, b) == ParseInteger([a, b], 16, INT_MIN, INT_MAX)
  {
    var s := [a, b];
    assert s[1..] == [b];
    assert [b][..0] == [];
    assert s[..1] == [a];
    if a == '-' || a == '+' {
      if DigitValue(b, 16) >= 0 {
        assert AllDigits([b], 16);
        assert DigitsValue([b], 16) == DigitValue(b, 16);
      } else {
        assert [b][0] == b;
        assert !AllDigits([b], 16);
      }
    } else if DigitValue(a, 16) >= 0 && DigitValue(b, 16) >= 0 {
      assert AllDigits(s, 16);
      assert DigitsValue([a], 16) == DigitValue(a, 16);
      assert DigitsValue(s, 16) == DigitValue(a, 16) * 16 + DigitValue(b, 16);
    } else if DigitValue(a, 16) < 0 {
      assert !(DigitValue(s[0], 16) >= 0);
    } else {
      assert !(DigitValue(s[1], 16) >= 0);
    }
  }

  /** `Int.toChar()`: the low 16 bits of the code. */
  function CharOfCode(code: int): (c: char)
    requires -15 <= code <= 255
    ensures (c as int) % 0x1_0000 == code % 0x1_0000
  {
    if code < 0 then (code + 0x1_0000) as char else code as char
  }

  /** The decoded text: a valid `%XX` is one char, '+' is a space, every other char is copied. */
  function PercentDecoded(v: string): (r: string)
    ensures |r| <= |v|
    decreases |v|
  {
    if v == [] then ""
    else if v[0] == '%' && 2 < |v| && HexCode(v[1], v[2]).Some? then
      [CharOfCode(HexCode(v[1], v[2]).value)] + PercentDecoded(v[3..])
    else if v[0] == '+' then " " + PercentDecoded(v[1..])
    else [v[0]] + PercentDecoded(v[1..])
  }

  /** `percentDecode`: the index loop over the text with a string builder. */
  method PercentDecode(value: string) returns (r: string)
    ensures r == PercentDecoded(value)
  {
    r := "";
    var i := 0;
    while i < |value|
      invariant 0 <= i <= |value|
      invariant PercentDecoded(value) == r + PercentDecoded(value[i..])
      decreases |value| - i
    {
      var piece, next := DecodeAt(value, i);
      assert r + (piece + PercentDecoded(value[next..])) == (r + piece) + PercentDecoded(value[next..]);
      r, i := r + piece, next;
    }
    assert value[i..] == [];
  }

  /** The `when` of one iteration: what is appended at index `i` and where the scan continues. */
  method DecodeAt(value: string, i: nat) returns (piece: string, next: nat)
    requires i < |value|
    ensures i < next <= |value|
    ensures PercentDecoded(value[i..]) == piece + PercentDecoded(value[next..])
  {
    if value[i] == '%' && i + 2 < |value| {
      var code := HexCode(value[i + 1], value[i + 2]);
      if code.Some? {
        piece, next := [CharOfCode(code.value)], i + 3;
      } else {
        piece, next := [value[i]], i + 1;
      }
    } else if value[i] == '+' {
      piece, next := " ", i + 1;
    } else {
      piece, next := [value[i]], i + 1;
    }
    DecodedFront(value, i);
  }

  /** One step of the decoding at index `i`. */
  lemma DecodedFront(value: string, i: nat)
    requires i < |value|
    ensures value[i] == '%' && i + 2 < |value| && HexCode(value[i + 1], value[i + 2]).Some? ==>
      PercentDecoded(value[i..]) == [CharOfCode(HexCode(value[i + 1], value[i + 2]).value)] + PercentDecoded(value[i + 3..])
    ensures !(value[i] == '%' && i + 2 < |value| && HexCode(value[i + 1], value[i + 2]).Some?) && value[i] == '+' ==>
      PercentDecoded(value[i..]) == " " + PercentDecoded(value[i + 1..])
    ensures !(value[i] == '%' && i + 2 < |value| && HexCode(value[i + 1], value[i + 2]).Some?) && value[i] != '+' ==>
      PercentDecoded(value[i..]) == [value[i]] + PercentDecoded(value[i + 1..])
  {
    var rest := value[i..];
    assert rest[0] == value[i] && |rest| == |value| - i;
    if i + 2 < |value| {
      assert rest[1] == value[i + 1] && rest[2] == value[i + 2];
      assert rest[3..] == value[i + 3..];
    }
    assert rest[1..] == value[i + 1..];
  }

  /** Text free of '%' and '+' decodes to itself. */
  lemma {:induction false} PercentDecodePlain(v: string)
    requires forall i :: 0 <= i < |v| ==> v[i] != '%' && v[i] != '+'
    ensures PercentDecoded(v) == v
    decreases |v|
  {
    if v != [] {
      PercentDecodePlain(v[1..]);
      assert v == [v[0]] + v[1..];
    }
  }

  /** The escape of one char: '%', '+' and '&' become `%25`, `%2B`, `%26`. */
  function EscapeChar(c: char): (r: string)
    ensures '&' !in r && |r| >= 1
  {
    if c == '%' then "%25" else if c == '+' then "%2B" else if c == '&' then "%26" else [c]
  }

  /** Percent-encoding of the three chars that would otherwise change meaning in a cipher. */
  function PercentEncode(u: string): (r: string)
    ensures '&' !in r
    decreases |u|
  {
    if u == [] then "" else EscapeChar(u[0]) + PercentEncode(u[1..])
  }

  lemma DecodeEscapedChar(c: char, rest: string)
    ensures PercentDecoded(EscapeChar(c) + rest) == [c] + PercentDecoded(rest)
  {
    var v := EscapeChar(c) + rest;
    if c == '%' {
      assert HexCode('2', '5') == Some(37);
      assert v[3..] == rest;
    } else if c == '+' {
      assert HexCode('2', 'B') == Some(43);
      assert v[3..] == rest;
    } else if c == '&' {
      assert HexCode('2', '6') == Some(38);
      assert v[3..] == rest;
    } else {
      assert v[1..] == rest;
    }
  }

  /** Decoding undoes encoding. */
  lemma {:induction false} PercentRoundTrip(u: string)
    ensures PercentDecoded(PercentEncode(u)) == u
    decreases |u|
  {
    if u != [] {
      DecodeEscapedChar(u[0], PercentEncode(u[1..]));
      PercentRoundTrip(u[1..]);
      assert u == [u[0]] + u[1..];
    }
  }

  // ---------------------------------------------------------------------------
  // Signature ciphers and stream URLs
  // ---------------------------------------------------------------------------

  /** `part.split('=', limit = 2)` kept only when it has two halves; the value is decoded. */
  function SplitPair(part: string): (r: Option<(string, string)>)
    ensures r.None? <==> '=' !in part
    ensures r.Some? ==> '=' !in r.value.0
  {
    var k := IndexOfChar(part, '=', 0);
    if k == -1 then None else Some((part[..k], PercentDecoded(part[k + 1..])))
  }

  /** `mapNotNull` of `SplitPair` over the pieces. */
  function Pairs(parts: seq<string>): seq<(string, string)>
    decreases |parts|
  {
    if parts == [] then []
    else
      var p := SplitPair(parts[0]);
      (if p.Some? then [p.value] else []) + Pairs(parts[1..])
  }

  /** `toMap()`: a later pair with the same key wins. */
  function ToMap(ps: seq<(string, string)>): (m: map<string, string>)
    ensures forall k :: k in m <==> exists i :: 0 <= i < |ps| && ps[i].0 == k
    decreases |ps|
  {
    if ps == [] then map[]
    else
      var m := ToMap(ps[..|ps| - 1]);
      assert forall i :: 0 <= i < |ps| - 1 ==> ps[..|ps| - 1][i] == ps[i];
      m[ps[|ps| - 1].0 := ps[|ps| - 1].1]
  }

  /** The key/value parameters of a signature cipher. */
  function CipherParams(cipher: string): map<string, string>
  {
    ToMap(Pairs(Split(cipher, '&')))
  }

  /**
    * `extractUrl`: the direct `url` field if it has content; else the `url`
    * parameter of the signature cipher, refused when the cipher carries an
    * `s` parameter (a ciphered signature is not supported).
    */
  function ExtractUrl(format: map<string, Json>): (r: Access<string>)
    ensures StringAt(format, "url").Found? ==> r == StringAt(format, "url")
  {
    match StringAt(format, "url")
    case Threw => Threw
    case Found(u) => Found(u)
    case Absent =>
      match StringAt(format, "signatureCipher")
      case Threw => Threw
      case Absent => Absent
      case Found(cipher) =>
        var params := CipherParams(cipher);
        if "url" !in params then Absent
        else if "s" in params then Absent
        else Found(params["url"])
  }

  /** One cipher parameter as text. */
  function EncodeParam(p: (string, string)): string
  {
    p.0 + "=" + PercentEncode(p.1)
  }

  /** A signature cipher built from parameters whose keys hold neither '&' nor '='. */
  function EncodeCipher(ps: seq<(string, string)>): string
  {
    Join(seq(|ps|, i requires 0 <= i < |ps| => EncodeParam(ps[i])), "&")
  }

  predicate PlainKeys(ps: seq<(string, string)>)
  {
    forall i :: 0 <= i < |ps| ==> '&' !in ps[i].0 && '=' !in ps[i].0
  }

  lemma SplitEncodedParam(p: (string, string))
    requires '=' !in p.0
    ensures SplitPair(EncodeParam(p)) == Some(p)
  {
    var part := EncodeParam(p);
    assert part[|p.0|] == '=';
    assert forall i :: 0 <= i < |p.0| ==> part[i] == p.0[i];
    assert IndexOfChar(part, '=', 0) == |p.0|;
    assert part[..|p.0|] == p.0;
    assert part[|p.0| + 1..] == PercentEncode(p.1);
    PercentRoundTrip(p.1);
  }

  lemma {:induction false} PairsOfEncoded(ps: seq<(string, string)>)
    requires PlainKeys(ps)
    ensures Pairs(seq(|ps|, i requires 0 <= i < |ps| => EncodeParam(ps[i]))) == ps
    decreases |ps|
  {
    var parts := seq(|ps|, i requires 0 <= i < |ps| => EncodeParam(ps[i]));
    if ps != [] {
      SplitEncodedParam(ps[0]);
      var tail := seq(|ps| - 1, i requires 0 <= i < |ps| - 1 => EncodeParam(ps[1..][i]));
      assert parts[1..] == tail;
      PairsOfEncoded(ps[1..]);
      assert ps == [ps[0]] + ps[1..];
    }
  }

  /** Reading a built cipher gives back its parameters (later duplicates winning). */
  lemma CipherRoundTrip(ps: seq<(string, string)>)
    requires |ps| >= 1 && PlainKeys(ps)
    ensures CipherParams(EncodeCipher(ps)) == ToMap(ps)
  {
    var parts := seq(|ps|, i requires 0 <= i < |ps| => EncodeParam(ps[i]));
    forall k | 0 <= k < |parts| ensures '&' !in parts[k] {
      assert parts[k] == ps[k].0 + "=" + PercentEncode(ps[k].1);
    }
    JoinSplit(parts, '&');
    PairsOfEncoded(ps);
  }

  /**
    * With no direct `url`, a format whose cipher is built from `ps` yields
    * the cipher's `url` exactly when it has one and carries no `s`.
    */
  lemma ExtractUrlFromCipher(format: map<string, Json>, ps: seq<(string, string)>)
    requires |ps| >= 1 && PlainKeys(ps)
    requires "url" !in format || format["url"] == JNull
    requires "signatureCipher" in format && format["signatureCipher"] == JPrim(EncodeCipher(ps), true)
    ensures var params := ToMap(ps);
      ExtractUrl(format) == if "url" in params && "s" !in params then Found(params["url"]) else Absent
  {
    CipherRoundTrip(ps);
  }

  // ---------------------------------------------------------------------------
  // Format entries
  // ---------------------------------------------------------------------------

  /** What one entry of `formats`/`adaptiveFormats` contributes. */
  datatype FormatEntry =
    | VideoEntry(video: StreamInfo)
    | AudioEntry(audio: AudioStreamInfo)
    | Skipped
    | Raises

  predicate StartsWith(s: string, p: string)
  {
    StartsAt(s, 0, p)
  }

  /** `mimeType.substringAfter("codecs=", "").trim('"')`. */
  function Codecs(mimeType: string): string
  {
    TrimChar(SubstringAfter(mimeType, "codecs="), '"')
  }

  /** A progressive stream announces an AAC or Opus codec. */
  predicate CarriesAudio(codecs: string)
  {
    Contains(codecs, "mp4a") || Contains(codecs, "opus")
  }

  /** The body of the `forEach` over format entries. */
  function ClassifyFormat(e: Json): FormatEntry
  {
    if !e.JObj? then Raises else ClassifyObject(e.fields)
  }

  /** An entry without a mime type is skipped. */
  function ClassifyObject(obj: map<string, Json>): FormatEntry
  {
    match StringAt(obj, "mimeType")
    case Threw => Raises
    case Absent => Skipped
    case Found(mimeType) => ClassifyWithMime(obj, mimeType)
  }

  /** An entry without a URL is skipped. */
  function ClassifyWithMime(obj: map<string, Json>, mimeType: string): FormatEntry
  {
    match ExtractUrl(obj)
    case Threw => Raises
    case Absent => Skipped
    case Found(url) => ClassifyWithUrl(obj, mimeType, url)
  }

  /** An entry without an itag is skipped; then audio and video entries are told apart. */
  function ClassifyWithUrl(obj: map<string, Json>, mimeType: string, url: string): FormatEntry
  {
    match IntAt(obj, "itag")
    case Threw => Raises
    case Absent => Skipped
    case Found(itag) =>
      var bitrate := LongAt(obj, "bitrate");
      var contentLength := LongAt(obj, "contentLength");
      if bitrate.Threw? || contentLength.Threw? then Raises
      else if StartsWith(mimeType, "audio/") then
        AudioEntry(AudioStreamInfo(itag, mimeType, Codecs(mimeType), bitrate.ToOption().GetOr(0), url,
                                   contentLength.ToOption()))
      else if StartsWith(mimeType, "video/") then
        ClassifyVideo(obj, mimeType, url, itag, bitrate.ToOption().GetOr(0), contentLength.ToOption())
      else Skipped
  }

  /** A video entry without width or height is skipped; fps defaults to 30. */
  function ClassifyVideo(obj: map<string, Json>, mimeType: string, url: string, itag: int,
                         bitrate: int, contentLength: Option<int>): FormatEntry
  {
    match IntAt(obj, "width")
    case Threw => Raises
    case Absent => Skipped
    case Found(width) =>
      match IntAt(obj, "height")
      case Threw => Raises
      case Absent => Skipped
      case Found(height) =>
        var fps := IntAt(obj, "fps");
        if fps.Threw? then Raises
        else
          var codecs := Codecs(mimeType);
          VideoEntry(StreamInfo(itag, mimeType, codecs, width, height, fps.ToOption().GetOr(30),
                                bitrate, url, contentLength, CarriesAudio(codecs)))
  }

  /**
    * A kept entry had a mime type, a URL and an itag; audio entries have an
    * `audio/` type, video entries a `video/` type with width and height.
    * Defaults: fps 30, bitrate 0; `hasAudio` iff the codecs name AAC or Opus.
    */
  lemma KeptEntriesAreComplete(e: Json)
    ensures ClassifyFormat(e).AudioEntry? ==>
      var a := ClassifyFormat(e).audio;
      && e.JObj?
      && StringAt(e.fields, "mimeType") == Found(a.mimeType) && StartsWith(a.mimeType, "audio/")
      && ExtractUrl(e.fields) == Found(a.url)
      && IntAt(e.fields, "itag") == Found(a.itag)
      && a.bitrate == LongAt(e.fields, "bitrate").ToOption().GetOr(0)
      && a.contentLength == LongAt(e.fields, "contentLength").ToOption()
      && a.codecs == Codecs(a.mimeType)
    ensures ClassifyFormat(e).VideoEntry? ==>
      var v := ClassifyFormat(e).video;
      && e.JObj?
      && StringAt(e.fields, "mimeType") == Found(v.mimeType)
      && StartsWith(v.mimeType, "video/") && !StartsWith(v.mimeType, "audio/")
      && ExtractUrl(e.fields) == Found(v.url)
      && IntAt(e.fields, "itag") == Found(v.itag)
      && IntAt(e.fields, "width") == Found(v.width)
      && IntAt(e.fields, "height") == Found(v.height)
      && v.fps == IntAt(e.fields, "fps").ToOption().GetOr(30)
      && v.bitrate == LongAt(e.fields, "bitrate").ToOption().GetOr(0)
      && v.contentLength == LongAt(e.fields, "contentLength").ToOption()
      && v.codecs == Codecs(v.mimeType)
      && (v.hasAudio <==> Contains(v.codecs, "mp4a") || Contains(v.codecs, "opus"))
  {
  }

  /**
    * Entries are dropped, without failing the parse, when the mime type, the
    * URL or the itag is missing, when a video entry lacks width or height, and
    * when the type is neither audio nor video; an element that is not an
    * object fails the parse.
    */
  lemma DroppedEntries(e: Json)
    ensures !e.JObj? ==> ClassifyFormat(e) == Raises
    ensures e.JObj? && StringAt(e.fields, "mimeType").Absent? ==> ClassifyFormat(e) == Skipped
    ensures e.JObj? && StringAt(e.fields, "mimeType").Found? && ExtractUrl(e.fields).Absent? ==>
      ClassifyFormat(e) == Skipped
    ensures (e.JObj? && StringAt(e.fields, "mimeType").Found? && ExtractUrl(e.fields).Found?
             && IntAt(e.fields, "itag").Absent?) ==> ClassifyFormat(e) == Skipped
    ensures (e.JObj? && StringAt(e.fields, "mimeType").Found?
             && !StartsWith(StringAt(e.fields, "mimeType").value, "audio/")
             && !StartsWith(StringAt(e.fields, "mimeType").value, "video/")) ==>
      !ClassifyFormat(e).AudioEntry? && !ClassifyFormat(e).VideoEntry?
    ensures ClassifyFormat(e).VideoEntry? ==> IntAt(e.fields, "width").Found? && IntAt(e.fields, "height").Found?
  {
  }

  /** `obj[key]` holds the text of the number `n` (quoted or not). */
  predicate HoldsNumber(obj: map<string, Json>, key: string, n: int)
  {
    key in obj && obj[key].JPrim? && obj[key].content == IntToString(n)
  }

  /** `obj[key]` holds the string `v`. */
  predicate HoldsString(obj: map<string, Json>, key: string, v: string)
  {
    key in obj && obj[key] == JPrim(v, true)
  }

  /** `obj[key]` holds the optional number `n`, missing or null standing for none. */
  predicate HoldsOptionalNumber(obj: map<string, Json>, key: string, n: Option<int>)
  {
    if n.Some? then HoldsNumber(obj, key, n.value) else key !in obj || obj[key] == JNull
  }

  /** A format entry, with a direct URL, that records the video stream `s` (other fields are free). */
  predicate WritesVideo(obj: map<string, Json>, s: StreamInfo)
  {
    && HoldsString(obj, "mimeType", s.mimeType)
    && HoldsString(obj, "url", s.url)
    && HoldsNumber(obj, "itag", s.itag)
    && HoldsNumber(obj, "width", s.width)
    && HoldsNumber(obj, "height", s.height)
    && HoldsNumber(obj, "fps", s.fps)
    && HoldsNumber(obj, "bitrate", s.bitrate)
    && HoldsOptionalNumber(obj, "contentLength", s.contentLength)
  }

  /** A format entry, with a direct URL, that records the audio stream `a`. */
  predicate WritesAudio(obj: map<string, Json>, a: AudioStreamInfo)
  {
    && HoldsString(obj, "mimeType", a.mimeType)
    && HoldsString(obj, "url", a.url)
    && HoldsNumber(obj, "itag", a.itag)
    && HoldsNumber(obj, "bitrate", a.bitrate)
    && HoldsOptionalNumber(obj, "contentLength", a.contentLength)
  }

  /** A stream record the parser can produce: fields in range and derived fields consistent. */
  predicate WellFormedVideo(s: StreamInfo)
  {
    && StartsWith(s.mimeType, "video/")
    && s.codecs == Codecs(s.mimeType)
    && s.hasAudio == CarriesAudio(s.codecs)
    && INT_MIN <= s.itag <= INT_MAX && INT_MIN <= s.width <= INT_MAX
    && INT_MIN <= s.height <= INT_MAX && INT_MIN <= s.fps <= INT_MAX
    && LONG_MIN <= s.bitrate <= LONG_MAX
    && (s.contentLength.Some? ==> LONG_MIN <= s.contentLength.value <= LONG_MAX)
  }

  predicate WellFormedAudio(a: AudioStreamInfo)
  {
    && StartsWith(a.mimeType, "audio/")
    && a.codecs == Codecs(a.mimeType)
    && INT_MIN <= a.itag <= INT_MAX
    && LONG_MIN <= a.bitrate <= LONG_MAX
    && (a.contentLength.Some? ==> LONG_MIN <= a.contentLength.value <= LONG_MAX)
  }

  /** A number written into an entry reads back as itself. */
  lemma WrittenIntegerReads(obj: map<string, Json>, key: string, n: int, lo: int, hi: int)
    requires key in obj && obj[key].JPrim? && obj[key].content == IntToString(n)
    requires lo <= n <= hi
    ensures IntegerAt(obj, key, lo, hi) == Found(n)
  {
    IntToStringRoundTrip(n, lo, hi);
  }

  lemma VideoIsNotAudio(m: string)
    requires StartsWith(m, "video/")
    ensures !StartsWith(m, "audio/")
  {
    assert m[0] == m[0..6][0] == 'v';
  }

  /** Any entry that records a video stream reads back as that stream. */
  lemma VideoEntryRoundTrip(obj: map<string, Json>, s: StreamInfo)
    requires WellFormedVideo(s) && WritesVideo(obj, s)
    ensures ClassifyFormat(JObj(obj)) == VideoEntry(s)
  {
    assert StringAt(obj, "mimeType") == Found(s.mimeType);
    assert ExtractUrl(obj) == Found(s.url) by {
      assert StringAt(obj, "url") == Found(s.url);
    }
    assert IntAt(obj, "itag") == Found(s.itag) by {
      WrittenIntegerReads(obj, "itag", s.itag, INT_MIN, INT_MAX);
    }
    assert LongAt(obj, "bitrate") == Found(s.bitrate) by {
      WrittenIntegerReads(obj, "bitrate", s.bitrate, LONG_MIN, LONG_MAX);
    }
    assert LongAt(obj, "contentLength").ToOption() == s.contentLength by {
      if s.contentLength.Some? {
        WrittenIntegerReads(obj, "contentLength", s.contentLength.value, LONG_MIN, LONG_MAX);
      }
    }
    VideoIsNotAudio(s.mimeType);
    assert IntAt(obj, "width") == Found(s.width) by {
      WrittenIntegerReads(obj, "width", s.width, INT_MIN, INT_MAX);
    }
    assert IntAt(obj, "height") == Found(s.height) by {
      WrittenIntegerReads(obj, "height", s.height, INT_MIN, INT_MAX);
    }
    assert IntAt(obj, "fps") == Found(s.fps) by {
      WrittenIntegerReads(obj, "fps", s.fps, INT_MIN, INT_MAX);
    }
  }

  /** Any entry that records an audio stream reads back as that stream. */
  lemma AudioEntryRoundTrip(obj: map<string, Json>, a: AudioStreamInfo)
    requires WellFormedAudio(a) && WritesAudio(obj, a)
    ensures ClassifyFormat(JObj(obj)) == AudioEntry(a)
  {
    assert StringAt(obj, "mimeType") == Found(a.mimeType);
    assert ExtractUrl(obj) == Found(a.url) by {
      assert StringAt(obj, "url") == Found(a.url);
    }
    assert IntAt(obj, "itag") == Found(a.itag) by {
      WrittenIntegerReads(obj, "itag", a.itag, INT_MIN, INT_MAX);
    }
    assert LongAt(obj, "bitrate") == Found(a.bitrate) by {
      WrittenIntegerReads(obj, "bitrate", a.bitrate, LONG_MIN, LONG_MAX);
    }
    assert LongAt(obj, "contentLength").ToOption() == a.contentLength by {
      if a.contentLength.Some? {
        WrittenIntegerReads(obj, "contentLength", a.contentLength.value, LONG_MIN, LONG_MAX);
      }
    }
  }

  // ---------------------------------------------------------------------------
  // The stream lists
  // ---------------------------------------------------------------------------

  datatype Catalogue = Catalogue(videos: seq<StreamInfo>, audios: seq<AudioStreamInfo>)

  /** Appending one classified entry to the lists built so far. */
  function AddEntry(c: Catalogue, entry: FormatEntry): Option<Catalogue>
  {
    match entry
    case Raises => None
    case Skipped => Some(c)
    case VideoEntry(v) => Some(Catalogue(c.videos + [v], c.audios))
    case AudioEntry(a) => Some(Catalogue(c.videos, c.audios + [a]))
  }

  /** The two stream lists of a list of entries, in order; `None` when an entry fails the parse. */
  function SortedFormats(es: seq<Json>): Option<Catalogue>
    decreases |es|
  {
    if es == [] then Some(Catalogue([], []))
    else
      var prefix := SortedFormats(es[..|es| - 1]);
      if prefix.None? then None else AddEntry(prefix.value, ClassifyFormat(es[|es| - 1]))
  }

  /** Concatenating two catalogues, failure absorbing. */
  function Combine(a: Option<Catalogue>, b: Option<Catalogue>): Option<Catalogue>
  {
    if a.None? || b.None? then None
    else Some(Catalogue(a.value.videos + b.value.videos, a.value.audios + b.value.audios))
  }

  lemma CombineAdd(a: Catalogue, b: Catalogue, entry: FormatEntry)
    ensures Combine(Some(a), AddEntry(b, entry)) ==
      AddEntry(Catalogue(a.videos + b.videos, a.audios + b.audios), entry)
  {
    match entry
    case VideoEntry(v) =>
      assert a.videos + (b.videos + [v]) == (a.videos + b.videos) + [v];
    case AudioEntry(au) =>
      assert a.audios + (b.audios + [au]) == (a.audios + b.audios) + [au];
    case Skipped =>
    case Raises =>
  }

  /** The lists of `formats + adaptiveFormats` are those of `formats` followed by those of `adaptiveFormats`. */
  lemma {:induction false} SortedFormatsAppend(xs: seq<Json>, ys: seq<Json>)
    ensures SortedFormats(xs + ys) == Combine(SortedFormats(xs), SortedFormats(ys))
    decreases |ys|
  {
    if ys == [] {
      assert xs + ys == xs;
      if SortedFormats(xs).Some? {
        assert SortedFormats(xs).value.videos + [] == SortedFormats(xs).value.videos;
        assert SortedFormats(xs).value.audios + [] == SortedFormats(xs).value.audios;
      }
    } else {
      var init := ys[..|ys| - 1];
      var last := ys[|ys| - 1];
      assert (xs + ys)[..|xs + ys| - 1] == xs + init;
      assert (xs + ys)[|xs + ys| - 1] == last;
      SortedFormatsAppend(xs, init);
      if SortedFormats(xs).Some? && SortedFormats(init).Some? {
        CombineAdd(SortedFormats(xs).value, SortedFormats(init).value, ClassifyFormat(last));
      }
    }
  }

  /**
    * Every listed stream comes from an entry classified as that stream, and
    * every entry classified as a stream is listed.
    */
  lemma {:induction false} SortedFormatsMembers(es: seq<Json>)
    requires SortedFormats(es).Some?
    ensures forall v :: v in SortedFormats(es).value.videos <==> exists e :: e in es && ClassifyFormat(e) == VideoEntry(v)
    ensures forall a :: a in SortedFormats(es).value.audios <==> exists e :: e in es && ClassifyFormat(e) == AudioEntry(a)
    ensures forall e :: e in es ==> !ClassifyFormat(e).Raises?
    decreases |es|
  {
    if es != [] {
      var init := es[..|es| - 1];
      var last := es[|es| - 1];
      assert es == init + [last];
      SortedFormatsMembers(init);
      forall e | e in es ensures e in init || e == last { }
    }
  }

  /** The `forEach` loop appending to two mutable lists. */
  method CollectStreams(es: seq<Json>) returns (r: Option<Catalogue>)
    ensures r == SortedFormats(es)
  {
    var videos: seq<StreamInfo> := [];
    var audios: seq<AudioStreamInfo> := [];
    var i := 0;
    while i < |es|
      invariant 0 <= i <= |es|
      invariant SortedFormats(es[..i]) == Some(Catalogue(videos, audios))
    {
      var entry := ClassifyFormat(es[i]);
      SortedFormatsSnoc(es, i);
      if entry.Raises? {
        SortedFormatsFailure(es, i + 1);
        return None;
      } else if entry.VideoEntry? {
        videos := videos + [entry.video];
      } else if entry.AudioEntry? {
        audios := audios + [entry.audio];
      }
      i := i + 1;
    }
    assert es[..i] == es;
    r := Some(Catalogue(videos, audios));
  }

  lemma SortedFormatsSnoc(es: seq<Json>, i: nat)
    requires i < |es|
    ensures SortedFormats(es[..i + 1]) ==
      if SortedFormats(es[..i]).None? then None else AddEntry(SortedFormats(es[..i]).value, ClassifyFormat(es[i]))
  {
    assert es[..i + 1][..i] == es[..i];
    assert es[..i + 1][i] == es[i];
  }

  /** A failed prefix fails the whole list. */
  lemma {:induction false} SortedFormatsFailure(es: seq<Json>, n: nat)
    requires n <= |es| && SortedFormats(es[..n]).None?
    ensures SortedFormats(es).None?
    decreases |es| - n
  {
    if n < |es| {
      assert es[..n + 1][..n] == es[..n];
      SortedFormatsFailure(es, n + 1);
    } else {
      assert es[..n] == es;
    }
  }

  // ---------------------------------------------------------------------------
  // The player response
  // ---------------------------------------------------------------------------

  datatype Details = Details(id: string, title: string, author: string, duration: int, thumbnail: Option<string>)

  /** The `url` of the last thumbnail, if any. */
  function ThumbnailUrl(videoDetails: map<string, Json>): Access<string>
  {
    match ObjectAt(videoDetails, "thumbnail")
    case Threw => Threw
    case Absent => Absent
    case Found(t) =>
      match ArrayAt(t, "thumbnails")
      case Threw => Threw
      case Absent => Absent
      case Found(items) =>
        if items == [] then Absent
        else match items[|items| - 1]
          case JObj(last) => StringAt(last, "url")
          case _ => Threw
  }

  /** The video-details block: id required, defaults for the rest. */
  function ReadDetails(playerResponse: map<string, Json>): Outcome<Details>
  {
    match ObjectAt(playerResponse, "videoDetails")
    case Threw => Failure(Unknown("unexpected JSON element"))
    case Absent => Failure(VideoUnavailable)
    case Found(vd) =>
      match StringAt(vd, "videoId")
      case Threw => Failure(Unknown("unexpected JSON element"))
      case Absent => Failure(VideoUnavailable)
      case Found(id) =>
        var title := StringAt(vd, "title");
        var author := StringAt(vd, "author");
        var length := StringAt(vd, "lengthSeconds");
        var thumbnail := ThumbnailUrl(vd);
        if title.Threw? || author.Threw? || length.Threw? || thumbnail.Threw? then
          Failure(Unknown("unexpected JSON element"))
        else
          var duration := if length.Found? then ParseLong(length.value).GetOr(0) else 0;
          Success(Details(id, title.ToOption().GetOr("Untitled"), author.ToOption().GetOr("Unknown"),
                          duration, thumbnail.ToOption()))
  }

  /** `formats + adaptiveFormats` of `streamingData`, each empty when missing. */
  function FormatEntries(playerResponse: map<string, Json>): Access<seq<Json>>
  {
    match ObjectAt(playerResponse, "streamingData")
    case Threw => Threw
    case Absent => Found([])
    case Found(sd) =>
      var formats := ArrayAt(sd, "formats");
      var adaptive := ArrayAt(sd, "adaptiveFormats");
      if formats.Threw? || adaptive.Threw? then Threw
      else Found(formats.ToOption().GetOr([]) + adaptive.ToOption().GetOr([]))
  }

  /** The result `parsePlayerResponseJson` returns for a player response object. */
  function PlayerResponseInfo(playerResponse: map<string, Json>): (r: Outcome<VideoInfo>)
    ensures r.Success? ==> r.value.streams != [] || r.value.audioStreams != []
  {
    match ReadDetails(playerResponse)
    case Failure(err) => Failure(err)
    case Success(d) =>
      match FormatEntries(playerResponse)
      case Threw => Failure(Unknown("unexpected JSON element"))
      case Absent => Failure(Unknown("unexpected JSON element"))
      case Found(es) =>
        match SortedFormats(es)
        case None => Failure(Unknown("unexpected JSON element"))
        case Some(c) =>
          if c.videos == [] && c.audios == [] then Failure(FormatNotAvailable)
          else Success(VideoInfo(VideoId(d.id), d.title, d.author, d.duration, c.videos, c.audios, d.thumbnail))
  }

  /** `parsePlayerResponseJson`: the header checks, then the loop over the entries. */
  method ParsePlayerResponse(playerResponse: map<string, Json>) returns (r: Outcome<VideoInfo>)
    ensures r == PlayerResponseInfo(playerResponse)
  {
    var details := ReadDetails(playerResponse);
    if details.Failure? {
      return Failure(details.error);
    }
    var entries := FormatEntries(playerResponse);
    if !entries.Found? {
      return Failure(Unknown("unexpected JSON element"));
    }
    var collected := CollectStreams(entries.value);
    if collected.None? {
      return Failure(Unknown("unexpected JSON element"));
    }
    var c := collected.value;
    if c.videos == [] && c.audios == [] {
      return Failure(FormatNotAvailable);
    }
    var d := details.value;
    r := Success(VideoInfo(VideoId(d.id), d.title, d.author, d.duration, c.videos, c.audios, d.thumbnail));
  }

  /**
    * A missing `videoDetails` or `videoId` gives `VideoUnavailable`; a parse
    * whose entries yield no stream gives `FormatNotAvailable`; an accessor
    * that throws (a non-object `videoDetails`, a non-primitive `videoId`, a
    * malformed `streamingData` or entry) gives `Unknown`; otherwise the
    * streams are those of `formats` followed by those of `adaptiveFormats`.
    */
  lemma PlayerResponseOutcomes(playerResponse: map<string, Json>)
    ensures "videoDetails" !in playerResponse ==> PlayerResponseInfo(playerResponse) == Failure(VideoUnavailable)
    ensures ("videoDetails" in playerResponse && playerResponse["videoDetails"].JObj?
             && "videoId" !in playerResponse["videoDetails"].fields) ==>
      PlayerResponseInfo(playerResponse) == Failure(VideoUnavailable)
    ensures (ReadDetails(playerResponse).Success? && FormatEntries(playerResponse).Found?
             && SortedFormats(FormatEntries(playerResponse).value) == Some(Catalogue([], []))) ==>
      PlayerResponseInfo(playerResponse) == Failure(FormatNotAvailable)
    ensures (ObjectAt(playerResponse, "videoDetails").Threw?
             || (ObjectAt(playerResponse, "videoDetails").Found?
                 && StringAt(ObjectAt(playerResponse, "videoDetails").value, "videoId").Threw?)) ==>
      PlayerResponseInfo(playerResponse) == Failure(Unknown("unexpected JSON element"))
    ensures (ReadDetails(playerResponse).Success?
             && (FormatEntries(playerResponse).Threw?
                 || (FormatEntries(playerResponse).Found? && SortedFormats(FormatEntries(playerResponse).value).None?))) ==>
      PlayerResponseInfo(playerResponse) == Failure(Unknown("unexpected JSON element"))
    ensures PlayerResponseInfo(playerResponse).Success? ==>
      && "streamingData" in playerResponse
      && var sd := playerResponse["streamingData"].fields;
         var formats := ArrayAt(sd, "formats").ToOption().GetOr([]);
         var adaptive := ArrayAt(sd, "adaptiveFormats").ToOption().GetOr([]);
         var info := PlayerResponseInfo(playerResponse).value;
         Combine(SortedFormats(formats), SortedFormats(adaptive)) == Some(Catalogue(info.streams, info.audioStreams))
  {
    if PlayerResponseInfo(playerResponse).Success? {
      var sd := playerResponse["streamingData"].fields;
      SortedFormatsAppend(ArrayAt(sd, "formats").ToOption().GetOr([]), ArrayAt(sd, "adaptiveFormats").ToOption().GetOr([]));
    }
  }

  // ---------------------------------------------------------------------------
  // Locating the embedded player response
  // ---------------------------------------------------------------------------

  /** The scanner state of `findMatchingBrace`. */
  datatype ScanState = ScanState(depth: int, inString: bool, escape: bool)

  /** One character of the scan: an escaped char is skipped; quotes toggle strings; braces outside strings count. */
  function ScanStep(st: ScanState, c: char): ScanState
  {
    if st.escape then st.(escape := false)
    else if c == '\\' then (if st.inString then st.(escape := true) else st)
    else if c == '"' then st.(inString := !st.inString)
    else if c == '{' then (if !st.inString then st.(depth := st.depth + 1) else st)
    else if c == '}' then (if !st.inString then st.(depth := st.depth - 1) else st)
    else st
  }

  /** The state before reading `text[i]`, scanning from `start`. */
  function ScanBefore(text: string, start: nat, i: nat): ScanState
    requires start <= i <= |text|
    decreases i
  {
    if i == start then ScanState(0, false, false)
    else ScanStep(ScanBefore(text, start, i - 1), text[i - 1])
  }

  /** `text[i]` is an unescaped '}' outside strings that brings the depth back to 0. */
  predicate ClosesAt(text: string, start: nat, i: nat)
    requires start <= i < |text|
  {
    var st := ScanBefore(text, start, i);
    !st.escape && !st.inString && text[i] == '}' && st.depth == 1
  }

  function CloseFrom(text: string, start: nat, i: nat): (r: int)
    requires start <= i <= |text|
    ensures r == -1 <==> forall k :: i <= k < |text| ==> !ClosesAt(text, start, k)
    ensures r != -1 ==> i <= r < |text| && ClosesAt(text, start, r)
    ensures r != -1 ==> forall k :: i <= k < r ==> !ClosesAt(text, start, k)
    decreases |text| - i
  {
    if i == |text| then -1
    else if ClosesAt(text, start, i) then i
    else CloseFrom(text, start, i + 1)
  }

  /** The index of the first closing brace of the scan from `start`, or -1. */
  function MatchingBrace(text: string, start: nat): (r: int)
    ensures r == -1 <==> start >= |text| || forall k :: start <= k < |text| ==> !ClosesAt(text, start, k)
    ensures r != -1 ==> start <= r < |text| && text[r] == '}' && ClosesAt(text, start, r)
    ensures r != -1 ==> forall k :: start <= k < r ==> !ClosesAt(text, start, k)
  {
    if start > |text| then -1 else CloseFrom(text, start, start)
  }

  /** `findMatchingBrace`: the index loop over depth, string and escape flags. */
  method FindMatchingBrace(text: string, startIndex: nat) returns (r: int)
    ensures r == MatchingBrace(text, startIndex)
  {
    if startIndex > |text| {
      return -1;
    }
    var depth := 0;
    var inString := false;
    var escape := false;
    var i := startIndex;
    while i < |text|
      invariant startIndex <= i <= |text|
      invariant ScanBefore(text, startIndex, i) == ScanState(depth, inString, escape)
      invariant forall k :: startIndex <= k < i ==> !ClosesAt(text, startIndex, k)
      decreases |text| - i
    {
      var c := text[i];
      if escape {
        escape := false;
      } else if c == '\\' {
        if inString {
          escape := true;
        }
      } else if c == '"' {
        inString := !inString;
      } else if c == '{' {
        if !inString {
          depth := depth + 1;
        }
      } else if c == '}' {
        if !inString {
          depth := depth - 1;
          if depth == 0 {
            assert ClosesAt(text, startIndex, i);
            return i;
          }
        }
      }
      i := i + 1;
    }
    return -1;
  }

  /**
    * From an opening brace, the depth stays at least 1 up to and including
    * the matching brace: the returned brace closes the object opened at `start`.
    */
  lemma {:induction false} DepthPositiveUntilMatch(text: string, start: nat, i: nat)
    requires start < |text| && text[start] == '{'
    requires MatchingBrace(text, start) != -1
    requires start < i <= MatchingBrace(text, start)
    ensures ScanBefore(text, start, i).depth >= 1
    decreases i
  {
    if i == start + 1 {
    } else {
      DepthPositiveUntilMatch(text, start, i - 1);
      assert !ClosesAt(text, start, i - 1);
    }
  }

  const Marker: string := "ytInitialPlayerResponse"

  /** The first '{' at or after the first marker, or -1 when there is no marker or no brace after it. */
  function JsonStart(html: string): (j: int)
    ensures j == -1 <==> IndexOf(html, Marker, 0) == -1 || IndexOfChar(html, '{', IndexOf(html, Marker, 0)) == -1
    ensures j != -1 ==> IndexOf(html, Marker, 0) <= j < |html| && html[j] == '{'
  {
    var index := IndexOf(html, Marker, 0);
    if index == -1 then -1 else IndexOfChar(html, '{', index)
  }

  /**
    * `extractPlayerResponse` up to the JSON decoding: the text from the first
    * '{' after the marker to its matching brace; null when the marker is
    * missing, no '{' follows it, or the brace is never matched.
    */
  function PlayerResponseText(html: string): (r: Option<string>)
    ensures r.None? <==> JsonStart(html) == -1 || MatchingBrace(html, JsonStart(html)) == -1
    ensures r.Some? ==>
      && r.value == html[JsonStart(html)..MatchingBrace(html, JsonStart(html)) + 1]
      && r.value[0] == '{' && r.value[|r.value| - 1] == '}'
  {
    var jsonStart := JsonStart(html);
    if jsonStart == -1 then None
    else
      var jsonEnd := MatchingBrace(html, jsonStart);
      if jsonEnd == -1 then None
      else
        var raw := html[jsonStart..jsonEnd + 1];
        assert raw[0] == html[jsonStart] && raw[|raw| - 1] == html[jsonEnd];
        Some(raw)
  }

  /** The result of a call that may let an exception escape. */
  datatype Raising<+T> = Returned(value: T) | Raised

  /**
    * `parseVideoInfo`: locate the player response, decode it (`decode` is
    * the JSON text decoder; `None` is a decoding exception) and parse it.
    * Extraction is outside the parser's exception handler, so a decoding
    * exception, or a decoded value that is not an object, escapes.
    */
  function ParseVideoInfo(html: string, decode: string -> Option<Json>): (r: Raising<Outcome<VideoInfo>>)
    ensures PlayerResponseText(html).None? ==> r == Returned(Failure(VideoUnavailable))
    ensures r.Returned? && r.value.Success? ==>
      && PlayerResponseText(html).Some?
      && decode(PlayerResponseText(html).value).Some?
      && decode(PlayerResponseText(html).value).value.JObj?
      && r.value == PlayerResponseInfo(decode(PlayerResponseText(html).value).value.fields)
  {
    match PlayerResponseText(html)
    case None => Returned(Failure(VideoUnavailable))
    case Some(raw) =>
      match decode(raw)
      case Some(JObj(m)) => Returned(PlayerResponseInfo(m))
      case _ => Raised
  }

  /** `parseFromPlayerResponse`. */
  function ParseFromPlayerResponse(playerResponse: map<string, Json>): (r: Outcome<VideoInfo>)
    ensures r.Success? ==> |r.value.streams| + |r.value.audioStreams| >= 1
  {
    PlayerResponseInfo(playerResponse)
  }

  // ---------------------------------------------------------------------------
  // The embedded-page example
  // ---------------------------------------------------------------------------

  /** The codecs parameter of a MIME type whose prefix holds no 'c', written with quotes. */
  lemma CodecsOfQuoted(prefix: string, c: string)
    requires forall i :: 0 <= i < |prefix| ==> prefix[i] != 'c'
    requires c != "" && c[0] != '"' && c[|c| - 1] != '"'
    ensures Codecs(prefix + "codecs=" + ("\"" + c + "\"")) == c
  {
    var q := "\"" + c + "\"";
    var m := prefix + "codecs=" + q;
    StartsAtJoin(prefix, "codecs=", q);
    forall i | 0 <= i < |prefix| ensures !StartsAt(m, i, "codecs=") {
      assert m[i] == prefix[i];
    }
    assert IndexOf(m, "codecs=", 0) == |prefix|;
    assert SubstringAfter(m, "codecs=") == q;
    var tail := c + "\"";
    assert q[1..] == tail;
    assert tail[..|tail| - 1] == c;
    assert TrimChar(c, '"') == c;
    assert TrimChar(tail, '"') == c;
    assert TrimChar(q, '"') == c;
  }

  const ExampleCodecs: string := "avc1.64001F, " + "mp4a" + ".40.2"
  const ExampleVideoMime: string := "video/mp4; " + "codecs=" + ("\"" + ExampleCodecs + "\"")
  const ExampleAudioMime: string := "audio/mp4; " + "codecs=" + ("\"" + "mp4a.40.2" + "\"")

  /** The example's progressive format entry; numbers are written as JSON numbers. */
  function ExampleVideoEntry(): map<string, Json>
  {
    map[
      "itag" := JPrim(IntToString(22), false),
      "mimeType" := JPrim(ExampleVideoMime, true),
      "width" := JPrim(IntToString(1280), false),
      "height" := JPrim(IntToString(720), false),
      "fps" := JPrim(IntToString(30), false),
      "bitrate" := JPrim(IntToString(900000), false),
      "url" := JPrim("http://video", true),
      "contentLength" := JPrim(IntToString(1000), true)]
  }

  /** The example's adaptive audio entry. */
  function ExampleAudioEntry(): map<string, Json>
  {
    map[
      "itag" := JPrim(IntToString(140), false),
      "mimeType" := JPrim(ExampleAudioMime, true),
      "bitrate" := JPrim(IntToString(128000), false),
      "url" := JPrim("http://audio", true),
      "contentLength" := JPrim(IntToString(500), true)]
  }

  /** The example's video details. */
  function ExampleVideoDetails(): map<string, Json>
  {
    map[
      "videoId" := JPrim("abc123xyz00", true),
      "title" := JPrim("Test Video", true),
      "author" := JPrim("Creator", true),
      "lengthSeconds" := JPrim("120", true),
      "thumbnail" := JObj(map["thumbnails" := JArr([JObj(map["url" := JPrim("http://thumb", true)])])])]
  }

  /** A player response with the given details, one progressive entry and one adaptive entry. */
  function ResponseOf(details: map<string, Json>, format: map<string, Json>, adaptive: map<string, Json>): map<string, Json>
  {
    map[
      "videoDetails" := JObj(details),
      "streamingData" := JObj(map["formats" := JArr([JObj(format)]), "adaptiveFormats" := JArr([JObj(adaptive)])])]
  }

  /** The player response of the page in the parser's example, as a JSON value. */
  function ExamplePlayerResponse(): map<string, Json>
  {
    ResponseOf(ExampleVideoDetails(), ExampleVideoEntry(), ExampleAudioEntry())
  }

  /** The codecs of the example's video stream name AAC. */
  lemma ExampleVideoCarriesAudio()
    ensures Codecs(ExampleVideoMime) == ExampleCodecs
    ensures CarriesAudio(Codecs(ExampleVideoMime))
  {
    var prefix := "video/mp4; ";
    forall i | 0 <= i < |prefix| ensures prefix[i] != 'c' { }
    CodecsOfQuoted(prefix, ExampleCodecs);
    StartsAtJoin("avc1.64001F, ", "mp4a", ".40.2");
    ContainsAt(ExampleCodecs, "mp4a", 13);
  }

  function ExampleVideoStream(): StreamInfo
  {
    StreamInfo(22, ExampleVideoMime, ExampleCodecs, 1280, 720, 30, 900000, "http://video", Some(1000), true)
  }

  lemma ExampleVideoWellFormed()
    ensures WellFormedVideo(ExampleVideoStream())
  {
    ExampleVideoCarriesAudio();
    assert StartsAt("video/mp4; ", 0, "video/");
    StartsAtExtend("video/mp4; ", "codecs=" + ("\"" + ExampleCodecs + "\""), 0, "video/");
  }

  lemma ExampleVideoWritten()
    ensures WritesVideo(ExampleVideoEntry(), ExampleVideoStream())
  {
  }

  /** The example's progressive entry reads back as a stream that carries audio. */
  lemma ExampleVideoEntryReads()
    ensures ClassifyFormat(JObj(ExampleVideoEntry())) == VideoEntry(ExampleVideoStream())
    ensures ExampleVideoStream().hasAudio
  {
    ExampleVideoWellFormed();
    ExampleVideoWritten();
    VideoEntryRoundTrip(ExampleVideoEntry(), ExampleVideoStream());
  }

  /** The example's audio entry reads back as an audio stream. */
  lemma ExampleAudioEntryReads()
    ensures ClassifyFormat(JObj(ExampleAudioEntry())) ==
      AudioEntry(AudioStreamInfo(140, ExampleAudioMime, Codecs(ExampleAudioMime), 128000, "http://audio", Some(500)))
  {
    var a := AudioStreamInfo(140, ExampleAudioMime, Codecs(ExampleAudioMime), 128000, "http://audio", Some(500));
    assert StartsAt("audio/mp4; ", 0, "audio/");
    StartsAtExtend("audio/mp4; ", "codecs=" + ("\"" + "mp4a.40.2" + "\""), 0, "audio/");
    AudioEntryRoundTrip(ExampleAudioEntry(), a);
  }

  /** Details whose id and title are those of the example, the other fields readable. */
  predicate ReadableDetails(vd: map<string, Json>)
  {
    && StringAt(vd, "videoId") == Found("abc123xyz00")
    && StringAt(vd, "title") == Found("Test Video")
    && !StringAt(vd, "author").Threw?
    && !StringAt(vd, "lengthSeconds").Threw?
    && !ThumbnailUrl(vd).Threw?
  }

  lemma ExampleDetailsReadable()
    ensures ReadableDetails(ExampleVideoDetails())
  {
  }

  lemma ResponseOfEntries(vd: map<string, Json>, v: map<string, Json>, a: map<string, Json>)
    ensures FormatEntries(ResponseOf(vd, v, a)) == Found([JObj(v), JObj(a)])
    ensures ObjectAt(ResponseOf(vd, v, a), "videoDetails") == Found(vd)
  {
    assert [JObj(v)] + [JObj(a)] == [JObj(v), JObj(a)];
  }

  lemma TwoEntriesSorted(v: map<string, Json>, a: map<string, Json>)
    requires ClassifyFormat(JObj(v)) == VideoEntry(ExampleVideoStream())
    requires ClassifyFormat(JObj(a)).AudioEntry?
    ensures SortedFormats([JObj(v), JObj(a)]) ==
      Some(Catalogue([ExampleVideoStream()], [ClassifyFormat(JObj(a)).audio]))
  {
    var es := [JObj(v), JObj(a)];
    var video := ClassifyFormat(es[0]);
    var audio := ClassifyFormat(es[1]);
    assert es[..0] == [];
    SortedFormatsSnoc(es, 0);
    assert SortedFormats(es[..1]) == AddEntry(Catalogue([], []), video);
    assert [] + [ExampleVideoStream()] == [ExampleVideoStream()];
    SortedFormatsSnoc(es, 1);
    assert es[..2] == es;
    assert [] + [audio.audio] == [audio.audio];
  }

  /** The example's structure, whatever the concrete maps holding its fields. */
  lemma ResponseOfParse(vd: map<string, Json>, v: map<string, Json>, a: map<string, Json>)
    requires ReadableDetails(vd)
    requires ClassifyFormat(JObj(v)) == VideoEntry(ExampleVideoStream())
    requires ClassifyFormat(JObj(a)).AudioEntry?
    ensures var r := PlayerResponseInfo(ResponseOf(vd, v, a));
      && r.Success?
      && r.value.id == VideoId("abc123xyz00") && r.value.title == "Test Video"
      && r.value.streams == [ExampleVideoStream()] && |r.value.audioStreams| == 1
  {
    ResponseOfEntries(vd, v, a);
    TwoEntriesSorted(v, a);
    var d := ReadDetails(ResponseOf(vd, v, a));
    assert d.Success? && d.value.id == "abc123xyz00" && d.value.title == "Test Video";
    var c := Catalogue([ExampleVideoStream()], [ClassifyFormat(JObj(a)).audio]);
    assert PlayerResponseInfo(ResponseOf(vd, v, a)) ==
      Success(VideoInfo(VideoId(d.value.id), d.value.title, d.value.author, d.value.duration,
                        c.videos, c.audios, d.value.thumbnail));
  }

  /** The embedded-page example yields id "abc123xyz00", one progressive stream and one audio stream. */
  lemma ExampleParse()
    ensures var r := PlayerResponseInfo(ExamplePlayerResponse());
      && r.Success?
      && r.value.id == VideoId("abc123xyz00") && r.value.title == "Test Video"
      && |r.value.streams| == 1 && |r.value.audioStreams| == 1
      && r.value.streams[0].hasAudio
  {
    ExampleDetailsReadable();
    ExampleVideoEntryReads();
    ExampleAudioEntryReads();
    ResponseOfParse(ExampleVideoDetails(), ExampleVideoEntry(), ExampleAudioEntry());
  }
}
