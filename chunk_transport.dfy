/**
  * The platform chunk transports: one byte range of a stream URL fetched
  * and appended to the output file, the bytes reported as they arrive.
  * The desktop transport runs curl and reads the status, the total size and
  * the validators back from the headers curl dumped; the Android transport
  * asks the connection.  What the process or the connection produced is an
  * input here, and so is an exception, with the number of reads done before
  * it.
  */
module ChunkTransport {
  import opened Wrappers
  import opened Text

  /** `ChunkDownloadResult`. */
  datatype ChunkResult = ChunkResult(
    httpStatus: int,
    bytesDownloaded: int,
    totalContentLength: Option<int>,
    eTag: Option<string>,
    lastModified: Option<string>,
    error: Option<string>)

  /** One transport call: its result and the counts it passed to `onBytesWritten`, in order. */
  datatype ChunkReply = ChunkReply(result: ChunkResult, reported: seq<int>)

  predicate IsSuccessStatus(status: int)
  {
    200 <= status <= 299
  }

  /** An exception inside the transport, raised after `afterReads` body reads, with its message. */
  datatype Fault = Fault(afterReads: nat, message: string)

  /** The result every transport returns from its catch-all handler. */
  function FaultResult(f: Fault): ChunkResult
  {
    ChunkResult(-1, 0, None, None, None, Some(f.message))
  }

  // ---------------------------------------------------------------------------
  // The range URL
  // ---------------------------------------------------------------------------

  const RangeKey: string := "&range="

  /** `"$url&range=$startByte-$endByte"` when `endByte >= 0`, else the URL unchanged. */
  function RangeUrl(url: string, startByte: int, endByte: int): string
  {
    if endByte >= 0 then url + RangeKey + IntToString(startByte) + "-" + IntToString(endByte) else url
  }

  /**
    * A range URL is the URL, the range key, and two numbers that read back
    * as the start and the end once split at '-'.
    */
  lemma RangeUrlRoundTrip(url: string, startByte: int, endByte: int)
    requires 0 <= startByte <= LONG_MAX && 0 <= endByte <= LONG_MAX
    ensures var r := RangeUrl(url, startByte, endByte);
      && |url| + |RangeKey| <= |r| && r[..|url|] == url && r[|url|..|url| + |RangeKey|] == RangeKey
      && |Split(r[|url| + |RangeKey|..], '-')| == 2
      && ParseLong(Split(r[|url| + |RangeKey|..], '-')[0]) == Some(startByte)
      && ParseLong(Split(r[|url| + |RangeKey|..], '-')[1]) == Some(endByte)
  {
    var a := NatToString(startByte);
    var b := NatToString(endByte);
    var t := a + ['-'] + b;
    var r := RangeUrl(url, startByte, endByte);
    assert r == url + RangeKey + t;
    assert r[|url| + |RangeKey|..] == t;
    SplitRange(a, b);
    IntToStringRoundTrip(startByte, LONG_MIN, LONG_MAX);
    IntToStringRoundTrip(endByte, LONG_MIN, LONG_MAX);
  }

  /** Two digit strings joined by '-' split back into the two. */
  lemma SplitRange(a: string, b: string)
    requires forall k :: 0 <= k < |a| ==> IsDigit(a[k])
    requires forall k :: 0 <= k < |b| ==> IsDigit(b[k])
    ensures Split(a + ['-'] + b, '-') == [a, b]
  {
    assert '-' !in a by {
      forall k | 0 <= k < |a| ensures a[k] != '-' {
        assert IsDigit(a[k]);
      }
    }
    SplitFirst(a, '-', b);
    assert IndexOfChar(b, '-', 0) == -1 by {
      forall k | 0 <= k < |b| ensures b[k] != '-' {
        assert IsDigit(b[k]);
      }
    }
  }

  /** Without an end the URL goes out as it is. */
  lemma RangeUrlOpenEnded(url: string, startByte: int, endByte: int)
    requires endByte < 0
    ensures RangeUrl(url, startByte, endByte) == url
  {
  }

  // ---------------------------------------------------------------------------
  // The read loop
  // ---------------------------------------------------------------------------

  /**
    * The read loop of both transports: every count a read returns is
    * written, added to `bytesWritten` and passed to `onBytesWritten`.
    */
  method CopyBody(readCounts: seq<nat>) returns (bytesWritten: int, reported: seq<int>)
    ensures reported == readCounts
    ensures bytesWritten == Sum(reported)
  {
    bytesWritten := 0;
    reported := [];
    var k := 0;
    while k < |readCounts|
      invariant 0 <= k <= |readCounts|
      invariant reported == readCounts[..k]
      invariant bytesWritten == Sum(reported)
    {
      var n := readCounts[k];
      bytesWritten := bytesWritten + n;
      reported := reported + [n];
      assert reported[..|reported| - 1] == readCounts[..k];
      k := k + 1;
    }
    assert readCounts[..|readCounts|] == readCounts;
  }

  // ---------------------------------------------------------------------------
  // Scanning dumped headers and URLs
  // ---------------------------------------------------------------------------

  /** The leftmost position in [from, n) where `at` matches, or -1. */
  function FirstAt<T>(n: nat, from: nat, at: nat -> Option<T>): (k: int)
    ensures k == -1 <==> forall i :: from <= i < n ==> at(i).None?
    ensures k != -1 ==> from <= k < n && at(k).Some?
    ensures k != -1 ==> forall i :: from <= i < k ==> at(i).None?
    decreases n - from
  {
    if from >= n then -1
    else if at(from).Some? then from
    else FirstAt(n, from + 1, at)
  }

  /** `find`: the capture of the leftmost match, if any. */
  function Find<T>(n: nat, at: nat -> Option<T>): (r: Option<T>)
    ensures r.None? <==> forall i :: 0 <= i < n ==> at(i).None?
  {
    var k := FirstAt(n, 0, at);
    if k == -1 then None else at(k)
  }

  predicate IsLineBreak(c: char)
  {
    c == '\r' || c == '\n'
  }

  predicate NotLineBreak(c: char)
  {
    !IsLineBreak(c)
  }

  predicate NotRegexSpace(c: char)
  {
    !IsRegexSpace(c)
  }

  /**
    * Where `[^\r\n]+` can start after a greedy `\s*` that spans [j, p):
    * the longest span first, then shorter ones, so the last index at or
    * before `p` holding a character other than CR and LF; -1 if none.
    */
  function ValueStart(s: string, j: nat, p: nat): (g: int)
    requires j <= p <= |s|
    ensures g != -1 ==> j <= g <= p && g < |s| && !IsLineBreak(s[g])
    ensures g != -1 ==> forall q :: g < q <= p && q < |s| ==> IsLineBreak(s[q])
    ensures g == -1 ==> forall q :: j <= q <= p && q < |s| ==> IsLineBreak(s[q])
    decreases p - j
  {
    if p < |s| && !IsLineBreak(s[p]) then p
    else if p == j then -1
    else ValueStart(s, j, p - 1)
  }

  /** `Name:\s*([^\r\n]+)` at `i`, case-insensitively: the captured text. */
  function HeaderAt(s: string, name: string, i: nat): (r: Option<string>)
    ensures r.Some? ==> StartsAtIgnoreCase(s, i, name + ":") && r.value != []
    ensures r.Some? ==> forall k :: 0 <= k < |r.value| ==> !IsLineBreak(r.value[k])
  {
    if !StartsAtIgnoreCase(s, i, name + ":") then None
    else
      var j := i + |name| + 1;
      var e := RunEnd(s, j, IsRegexSpace);
      var g := ValueStart(s, j, e);
      if g == -1 then None
      else Some(s[g..RunEnd(s, g, NotLineBreak)])
  }

  /** `Regex("Name:\\s*([^\r\n]+)", IGNORE_CASE).find(headers)?.groupValues?.get(1)?.trim()`. */
  function HeaderValue(headers: string, name: string): (r: Option<string>)
    ensures r.Some? ==> forall k :: 0 <= k < |r.value| ==> !IsLineBreak(r.value[k])
  {
    match Find(|headers|, (i: nat) => HeaderAt(headers, name, i))
    case None => None
    case Some(v) => Some(Trim(v))
  }

  /** A header is found exactly when some position starts a match. */
  lemma HeaderValueFound(headers: string, name: string)
    ensures HeaderValue(headers, name).None? <==> forall i :: 0 <= i < |headers| ==> HeaderAt(headers, name, i).None?
  {
    var at := (i: nat) => HeaderAt(headers, name, i);
    forall i: nat ensures at(i) == HeaderAt(headers, name, i) {
    }
    assert Find(|headers|, at).None? <==> forall i :: 0 <= i < |headers| ==> at(i).None?;
  }

  /** `/(\d+)` at `i`: the digits. */
  function SlashDigitsAt(s: string, i: nat): (r: Option<string>)
    ensures r.Some? ==> i < |s| && s[i] == '/' && r.value != [] && forall k :: 0 <= k < |r.value| ==> IsDigit(r.value[k])
  {
    if i + 1 < |s| && s[i] == '/' && IsDigit(s[i + 1]) then Some(s[i + 1..RunEnd(s, i + 1, IsDigit)]) else None
  }

  /** `Regex("/(\\d+)").find(v)?.groupValues?.get(1)?.toLongOrNull()`. */
  function TotalFromRange(contentRange: string): Option<int>
  {
    match Find(|contentRange|, (i: nat) => SlashDigitsAt(contentRange, i))
    case None => None
    case Some(ds) => ParseLong(ds)
  }

  const ClenKey: string := "clen="

  /** `[?&]clen=(\d+)` at `i`: the digits. */
  function ClenAt(url: string, i: nat): (r: Option<string>)
    ensures r.Some? ==> i < |url| && (url[i] == '?' || url[i] == '&') && StartsAt(url, i + 1, ClenKey)
    ensures r.Some? ==> r.value != [] && forall k :: 0 <= k < |r.value| ==> IsDigit(r.value[k])
  {
    if i + 6 < |url| && (url[i] == '?' || url[i] == '&') && StartsAt(url, i + 1, ClenKey) && IsDigit(url[i + 6]) then
      Some(url[i + 6..RunEnd(url, i + 6, IsDigit)])
    else None
  }

  /** `Regex("[?&]clen=(\\d+)").find(url)?.groupValues?.get(1)?.toLongOrNull()`. */
  function TotalFromClen(url: string): Option<int>
  {
    match Find(|url|, (i: nat) => ClenAt(url, i))
    case None => None
    case Some(ds) => ParseLong(ds)
  }

  /** `totalFromRange ?: totalFromClen`. */
  function TotalSize(contentRange: Option<string>, url: string): (r: Option<int>)
  {
    var fromRange := if contentRange.Some? then TotalFromRange(contentRange.value) else None;
    if fromRange.Some? then fromRange else TotalFromClen(url)
  }

  /** The total comes from the Content-Range value when it carries one, else from `clen=`, else there is none. */
  lemma TotalSizeOrder(contentRange: Option<string>, url: string)
    ensures contentRange.Some? && TotalFromRange(contentRange.value).Some? ==>
      TotalSize(contentRange, url) == TotalFromRange(contentRange.value)
    ensures (contentRange.None? || TotalFromRange(contentRange.value).None?) ==>
      TotalSize(contentRange, url) == TotalFromClen(url)
    ensures TotalSize(contentRange, url).Some? ==> 0 <= TotalSize(contentRange, url).value <= LONG_MAX
  {
    var fromRange := if contentRange.Some? then TotalFromRange(contentRange.value) else None;
    if fromRange.Some? {
      var v := contentRange.value;
      var ds := Find(|v|, (i: nat) => SlashDigitsAt(v, i)).value;
      DigitsNonNegative(ds);
    } else if TotalFromClen(url).Some? {
      var ds := Find(|url|, (i: nat) => ClenAt(url, i)).value;
      DigitsNonNegative(ds);
    }
  }

  /** A run of digits reads as a non-negative number, when it reads at all. */
  lemma DigitsNonNegative(ds: string)
    requires ds != [] && forall k :: 0 <= k < |ds| ==> IsDigit(ds[k])
    ensures ParseLong(ds).Some? ==> ParseLong(ds).value >= 0
  {
    assert IsDigit(ds[0]);
  }

  /** A number written after the first '/' of a Content-Range value is the total. */
  lemma TotalFromRangeOf(unit: string, total: nat)
    requires '/' !in unit
    requires total <= LONG_MAX
    ensures TotalFromRange(unit + "/" + NatToString(total)) == Some(total)
  {
    var d := NatToString(total);
    var v := unit + "/" + d;
    var at := (i: nat) => SlashDigitsAt(v, i);
    assert v[|unit|] == '/';
    assert v[|unit| + 1..] == d;
    assert IsDigit(v[|unit| + 1]) by {
      assert v[|unit| + 1] == d[0];
    }
    forall i | 0 <= i < |unit| ensures at(i).None? {
      assert v[i] == unit[i];
      assert unit[i] in unit;
    }
    forall q | |unit| + 1 <= q < |v| ensures IsDigit(v[q]) {
      assert v[q] == d[q - |unit| - 1];
    }
    DigitRunToEnd(v, |unit| + 1);
    assert |unit| + 1 < |v|;
    assert v[|unit| + 1..|v|] == d;
    assert SlashDigitsAt(v, |unit|) == Some(d);
    assert at(|unit|) == Some(d);
    assert Find(|v|, at) == Some(d);
    NatToStringValue(total);
  }

  /** A suffix of digits runs to the end of the text. */
  lemma {:induction false} DigitRunToEnd(s: string, i: nat)
    requires i <= |s|
    requires forall q :: i <= q < |s| ==> IsDigit(s[q])
    ensures RunEnd(s, i, IsDigit) == |s|
    decreases |s| - i
  {
    if i < |s| {
      DigitRunToEnd(s, i + 1);
    }
  }

  // ---------------------------------------------------------------------------
  // The status line
  // ---------------------------------------------------------------------------

  const HttpPrefix: string := "HTTP/"

  /** `HTTP/\S+\s+(\d+)` at `i`: the digits and the index just past the match. */
  function StatusLineAt(s: string, i: nat): (r: Option<(string, nat)>)
    ensures r.Some? ==> StartsAt(s, i, HttpPrefix) && i < r.value.1 <= |s|
    ensures r.Some? ==> r.value.0 != [] && forall k :: 0 <= k < |r.value.0| ==> IsDigit(r.value.0[k])
  {
    if !StartsAt(s, i, HttpPrefix) then None
    else
      var a := i + |HttpPrefix|;
      var b := RunEnd(s, a, NotRegexSpace);
      if b == a || b == |s| then None
      else
        var c := RunEnd(s, b, IsRegexSpace);
        if c == |s| || !IsDigit(s[c]) then None
        else
          var d := RunEnd(s, c, IsDigit);
          Some((s[c..d], d))
  }

  /** `findAll(...).lastOrNull()` from `from`: matches do not overlap, each search resumes at the previous end. */
  function LastStatusLine(s: string, from: nat): (r: Option<string>)
    ensures r.Some? ==> r.value != [] && forall k :: 0 <= k < |r.value| ==> IsDigit(r.value[k])
    decreases |s| - from
  {
    if from >= |s| then None
    else match StatusLineAt(s, from)
      case Some((ds, e)) =>
        var later := LastStatusLine(s, e);
        if later.Some? then later else Some(ds)
      case None => LastStatusLine(s, from + 1)
  }

  /** The status of the desktop transport: the last status line's code, else 200 after a clean exit, else 403. */
  function CurlStatus(headers: string, exitCode: int): int
  {
    var line := LastStatusLine(headers, 0);
    var code := if line.Some? then ParseInt(line.value) else None;
    if code.Some? then code.value else if exitCode == 0 then 200 else 403
  }

  /** The code read is the one of a status line after which no other one follows. */
  lemma {:induction false} LastStatusLineIsLast(s: string, from: nat)
    requires LastStatusLine(s, from).Some?
    ensures exists i: nat, e: nat ::
      from <= i && StatusLineAt(s, i) == Some((LastStatusLine(s, from).value, e)) && LastStatusLine(s, e).None?
    decreases |s| - from
  {
    match StatusLineAt(s, from)
    case Some((ds, e)) =>
      if LastStatusLine(s, e).Some? {
        LastStatusLineIsLast(s, e);
        var i: nat, e2: nat :| e <= i && StatusLineAt(s, i) == Some((LastStatusLine(s, e).value, e2))
          && LastStatusLine(s, e2).None?;
        assert from <= i;
      } else {
        assert StatusLineAt(s, from) == Some((LastStatusLine(s, from).value, e));
      }
    case None =>
      LastStatusLineIsLast(s, from + 1);
  }

  /** Headers with no status line fall back to 200 on a clean exit and 403 otherwise. */
  lemma CurlStatusDefault(headers: string, exitCode: int)
    requires forall i :: 0 <= i < |headers| ==> StatusLineAt(headers, i).None?
    ensures CurlStatus(headers, exitCode) == (if exitCode == 0 then 200 else 403)
  {
    NoStatusLine(headers, 0);
  }

  lemma {:induction false} NoStatusLine(s: string, from: nat)
    requires forall i :: from <= i < |s| ==> StatusLineAt(s, i).None?
    ensures LastStatusLine(s, from).None?
    decreases |s| - from
  {
    if from < |s| {
      NoStatusLine(s, from + 1);
    }
  }

  /** One status line `HTTP/<version> <code>` ended by CR LF is read back as its code. */
  lemma StatusLineOf(version: string, code: nat)
    requires version != [] && forall k :: 0 <= k < |version| ==> !IsRegexSpace(version[k])
    requires code <= INT_MAX
    ensures CurlStatus(HttpPrefix + version + " " + NatToString(code) + "\r\n", 0) == code
  {
    var d := NatToString(code);
    var s := HttpPrefix + version + " " + d + "\r\n";
    var a := |HttpPrefix|;
    var b := a + |version|;
    var c := b + 1;
    var e := c + |d|;
    assert StartsAt(s, 0, HttpPrefix);
    forall q | a <= q < b ensures NotRegexSpace(s[q]) {
      assert s[q] == version[q - a];
    }
    assert s[b] == ' ';
    RunEndAt(s, a, b, NotRegexSpace);
    assert IsDigit(s[c]) by {
      assert s[c] == d[0];
    }
    RunEndAt(s, b, c, IsRegexSpace);
    forall q | c <= q < e ensures IsDigit(s[q]) {
      assert s[q] == d[q - c];
    }
    assert s[e] == '\r';
    RunEndAt(s, c, e, IsDigit);
    assert s[c..e] == d;
    assert StatusLineAt(s, 0) == Some((d, e));
    forall i | e <= i < |s| ensures StatusLineAt(s, i).None? {
      assert !StartsAt(s, i, HttpPrefix);
    }
    NoStatusLine(s, e);
    NatToStringValue(code);
  }

  /** A run of `p` from `i` to `e`, ended by a character outside `p`, ends at `e`. */
  lemma {:induction false} RunEndAt(s: string, i: nat, e: nat, p: char -> bool)
    requires i <= e < |s|
    requires forall q :: i <= q < e ==> p(s[q])
    requires !p(s[e])
    ensures RunEnd(s, i, p) == e
    decreases e - i
  {
    if i < e {
      RunEndAt(s, i + 1, e, p);
    }
  }

  // ---------------------------------------------------------------------------
  // Desktop: curl
  // ---------------------------------------------------------------------------

  /** What curl produced: the counts its stdout returned to the reads, its exit code and its dumped headers. */
  datatype CurlRun = CurlRun(readCounts: seq<nat>, exitCode: int, headers: string)

  /** The counts reported before an exception raised after `n` reads. */
  function ReadsBefore(readCounts: seq<nat>, n: nat): (r: seq<int>)
    ensures |r| <= |readCounts| && r == readCounts[..|r|]
  {
    if n <= |readCounts| then readCounts[..n] else readCounts
  }

  /** The error text when curl exits non-zero. */
  function CurlError(exitCode: int, status: int): string
  {
    "curl exit code " + IntToString(exitCode) + " (HTTP " + IntToString(status) + ")"
  }

  /** The result the desktop transport builds once curl has exited. */
  function CurlResult(url: string, run: CurlRun): ChunkResult
  {
    var status := CurlStatus(run.headers, run.exitCode);
    var contentRange := HeaderValue(run.headers, "Content-Range");
    ChunkResult(
      status,
      Sum(run.readCounts),
      TotalSize(contentRange, url),
      HeaderValue(run.headers, "ETag"),
      HeaderValue(run.headers, "Last-Modified"),
      if run.exitCode != 0 then Some(CurlError(run.exitCode, status)) else None)
  }

  /**
    * The desktop transport as written: curl runs without `--fail`, so the
    * body of any response, an error page included, is written and reported.
    */
  function DesktopReply(url: string, run: CurlRun, fault: Option<Fault>): ChunkReply
  {
    match fault
    case Some(f) => ChunkReply(FaultResult(f), ReadsBefore(run.readCounts, f.afterReads))
    case None => ChunkReply(CurlResult(url, run), run.readCounts)
  }

  /** `downloadChunk` on the desktop: the range URL requested, and the reply. */
  method DesktopChunk(url: string, startByte: int, endByte: int, run: CurlRun, fault: Option<Fault>)
    returns (requested: string, reply: ChunkReply)
    ensures requested == RangeUrl(url, startByte, endByte)
    ensures reply == DesktopReply(url, run, fault)
  {
    requested := RangeUrl(url, startByte, endByte);
    if fault.Some? {
      return requested, ChunkReply(FaultResult(fault.value), ReadsBefore(run.readCounts, fault.value.afterReads));
    }
    var bytesWritten, reported := CopyBody(run.readCounts);
    var status := CurlStatus(run.headers, run.exitCode);
    var result := ChunkResult(
      status,
      bytesWritten,
      TotalSize(HeaderValue(run.headers, "Content-Range"), url),
      HeaderValue(run.headers, "ETag"),
      HeaderValue(run.headers, "Last-Modified"),
      if run.exitCode != 0 then Some(CurlError(run.exitCode, status)) else None);
    reply := ChunkReply(result, reported);
  }

  /**
    * The desktop result: the bytes are the sum of the reported counts; the
    * error is set exactly when curl exits non-zero or the transport throws;
    * an exception gives status -1, no bytes and no total.
    */
  lemma DesktopReplyFacts(url: string, run: CurlRun, fault: Option<Fault>)
    ensures var r := DesktopReply(url, run, fault);
      && (fault.None? ==> r.result.bytesDownloaded == Sum(r.reported) && r.reported == run.readCounts)
      && (r.result.error.Some? <==> run.exitCode != 0 || fault.Some?)
      && (fault.Some? ==>
            r.result.httpStatus == -1 && r.result.bytesDownloaded == 0
            && r.result.totalContentLength.None? && r.result.eTag.None? && r.result.lastModified.None?)
      && (fault.None? ==> r.result.httpStatus == CurlStatus(run.headers, run.exitCode))
  {
  }

  /**
    * The body of a 403 response is written and reported as progress: with
    * no `--fail`, curl exits 0 after copying the error page.
    */
  lemma DesktopReportsErrorBody(url: string, version: string, body: seq<nat>)
    requires version != [] && forall k :: 0 <= k < |version| ==> !IsRegexSpace(version[k])
    requires body != [] && body[0] > 0
    ensures var run := CurlRun(body, 0, HttpPrefix + version + " " + NatToString(403) + "\r\n");
      var r := DesktopReply(url, run, None);
      && r.result.httpStatus == 403 && r.result.error.None?
      && r.reported == body && Sum(r.reported) > 0
  {
    StatusLineOf(version, 403);
    SumNonNegative(body[1..]);
    assert body == [body[0]] + body[1..];
    SumAppend([body[0]], body[1..]);
    assert Sum([body[0]]) == Sum([]) + body[0] by {
      assert [body[0]][..0] == [];
    }
  }

  /**
    * The desktop transport as evidently intended: like the Android one, a
    * response outside 2xx is not copied, so nothing is written or reported.
    */
  function DesktopReplyChecked(url: string, run: CurlRun, fault: Option<Fault>): ChunkReply
  {
    match fault
    case Some(f) =>
      var status := CurlStatus(run.headers, run.exitCode);
      ChunkReply(FaultResult(f), if IsSuccessStatus(status) then ReadsBefore(run.readCounts, f.afterReads) else [])
    case None =>
      var status := CurlStatus(run.headers, run.exitCode);
      if IsSuccessStatus(status) then ChunkReply(CurlResult(url, run), run.readCounts)
      else ChunkReply(CurlResult(url, run).(bytesDownloaded := 0), [])
  }

  /** A transport reply that reports bytes only for a 2xx status. */
  predicate ReportsOnlySuccess(reply: ChunkReply)
  {
    !IsSuccessStatus(reply.result.httpStatus) && reply.result.httpStatus != -1 ==> reply.reported == []
  }

  /** The corrected desktop transport reports nothing for an error status, and its byte count is still the sum of its reports. */
  lemma DesktopCheckedReportsOnlySuccess(url: string, run: CurlRun, fault: Option<Fault>)
    ensures ReportsOnlySuccess(DesktopReplyChecked(url, run, fault))
    ensures fault.None? ==>
      DesktopReplyChecked(url, run, fault).result.bytesDownloaded == Sum(DesktopReplyChecked(url, run, fault).reported)
    ensures fault.None? && IsSuccessStatus(CurlStatus(run.headers, run.exitCode)) ==>
      DesktopReplyChecked(url, run, fault) == DesktopReply(url, run, fault)
  {
  }

  // ---------------------------------------------------------------------------
  // Android: HttpsURLConnection
  // ---------------------------------------------------------------------------

  /** What the connection answered: the response code, three header fields and the counts of the body reads. */
  datatype Connection = Connection(
    responseCode: int,
    contentRange: Option<string>,
    eTag: Option<string>,
    lastModified: Option<string>,
    readCounts: seq<nat>)

  function AndroidReply(url: string, conn: Connection, fault: Option<Fault>): ChunkReply
  {
    var ok := IsSuccessStatus(conn.responseCode);
    match fault
    case Some(f) => ChunkReply(FaultResult(f), if ok then ReadsBefore(conn.readCounts, f.afterReads) else [])
    case None =>
      if !ok then
        ChunkReply(ChunkResult(conn.responseCode, 0, None, None, None, Some("HTTP " + IntToString(conn.responseCode))), [])
      else
        ChunkReply(
          ChunkResult(conn.responseCode, Sum(conn.readCounts), TotalSize(conn.contentRange, url), conn.eTag, conn.lastModified, None),
          conn.readCounts)
  }

  /** `downloadChunk` on Android: the range URL requested, and the reply. */
  method AndroidChunk(url: string, startByte: int, endByte: int, conn: Connection, fault: Option<Fault>)
    returns (requested: string, reply: ChunkReply)
    ensures requested == RangeUrl(url, startByte, endByte)
    ensures reply == AndroidReply(url, conn, fault)
  {
    requested := RangeUrl(url, startByte, endByte);
    var httpStatus := conn.responseCode;
    if fault.Some? {
      var reported := if IsSuccessStatus(httpStatus) then ReadsBefore(conn.readCounts, fault.value.afterReads) else [];
      return requested, ChunkReply(FaultResult(fault.value), reported);
    }
    if !IsSuccessStatus(httpStatus) {
      return requested, ChunkReply(ChunkResult(httpStatus, 0, None, None, None, Some("HTTP " + IntToString(httpStatus))), []);
    }
    var total := TotalSize(conn.contentRange, url);
    var bytesWritten, reported := CopyBody(conn.readCounts);
    reply := ChunkReply(ChunkResult(httpStatus, bytesWritten, total, conn.eTag, conn.lastModified, None), reported);
  }

  /**
    * The Android result: a status outside 2xx reads no body and reports
    * "HTTP n"; a 2xx result has no error and counts exactly what it
    * reported; an exception gives status -1 and no bytes.
    */
  lemma AndroidReplyFacts(url: string, conn: Connection, fault: Option<Fault>)
    ensures var r := AndroidReply(url, conn, fault);
      && ReportsOnlySuccess(r)
      && (fault.None? && !IsSuccessStatus(conn.responseCode) ==>
            r.result.bytesDownloaded == 0 && r.result.totalContentLength.None? && r.reported == []
            && r.result.error == Some("HTTP " + IntToString(conn.responseCode)))
      && (fault.None? && IsSuccessStatus(conn.responseCode) ==>
            r.result.error.None? && r.result.bytesDownloaded == Sum(r.reported) && r.reported == conn.readCounts)
      && (fault.Some? ==> r.result.httpStatus == -1 && r.result.bytesDownloaded == 0 && r.result.error.Some?)
  {
  }
}
