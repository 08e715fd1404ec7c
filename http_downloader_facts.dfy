/**
  * What every log of the chunk loop has in common: the rules each step
  * followed, the running byte count `onProgress` sees, when the total and
  * the validators are fixed, the refresh cap, and where a chunk is retried
  * after an HTTP 403.
  */
module HttpDownloaderFacts {
  import opened Wrappers
  import opened Text
  import opened ChunkTransport
  import opened HttpDownloader

  // ---------------------------------------------------------------------------
  // Prefixes
  // ---------------------------------------------------------------------------

  /** Every prefix of a well-formed log is well-formed. */
  lemma {:induction false} WFPrefix(url: string, resume: int, env: Env, log: seq<Step>, n: nat)
    requires WF(url, resume, env, log) && n <= |log|
    ensures WF(url, resume, env, log[..n])
    decreases |log|
  {
    if n < |log| {
      WFPrefix(url, resume, env, log[..|log| - 1], n);
      assert log[..|log| - 1][..n] == log[..n];
    } else {
      assert log[..n] == log;
    }
  }

  /** Step `k` of a well-formed log followed the rules from the variables replayed before it. */
  lemma StepAt(url: string, resume: int, env: Env, log: seq<Step>, k: nat)
    requires WF(url, resume, env, log) && k < |log|
    ensures WF(url, resume, env, log[..k]) && StepOk(url, resume, env, log[..k], log[k])
    ensures Replay(url, resume, log[..k + 1]) == Apply(Replay(url, resume, log[..k]), log[k])
  {
    WFPrefix(url, resume, env, log, k + 1);
    assert log[..k + 1][..k] == log[..k];
  }

  // ---------------------------------------------------------------------------
  // Refreshes
  // ---------------------------------------------------------------------------

  /** The refreshes that returned a URL. */
  function SuccessfulRefreshes(log: seq<Step>): nat
  {
    if log == [] then 0
    else SuccessfulRefreshes(log[..|log| - 1]) + (if IsRefresh(log[|log| - 1]) && log[|log| - 1].freshUrl.Some? then 1 else 0)
  }

  /**
    * `urlRefreshCount` counts the refreshes that returned a URL, and never
    * passes `MAX_URL_REFRESHES`: both refreshes are made only below it.
    */
  lemma {:induction false} RefreshCap(url: string, resume: int, env: Env, log: seq<Step>)
    requires WF(url, resume, env, log)
    ensures Replay(url, resume, log).urlRefreshCount == SuccessfulRefreshes(log) <= MaxRefreshes
  {
    if log != [] {
      RefreshCap(url, resume, env, log[..|log| - 1]);
    }
  }

  // ---------------------------------------------------------------------------
  // Progress
  // ---------------------------------------------------------------------------

  /** Every count the transport reported, in order. */
  function Reports(log: seq<Step>): seq<int>
  {
    if log == [] then []
    else Reports(log[..|log| - 1]) + (if log[|log| - 1].Chunk? then log[|log| - 1].call.reply.reported else [])
  }

  /** One report per count, each carrying the running total from `downloaded` and the known total. */
  lemma {:induction false} ProgressStepsFacts(downloaded: int, total: Option<int>, counts: seq<int>)
    ensures |ProgressSteps(downloaded, total, counts)| == |counts|
    ensures forall j :: 0 <= j < |counts| ==>
      ProgressSteps(downloaded, total, counts)[j] == ProgressReport(downloaded + Sum(counts[..j + 1]), total)
  {
    if counts != [] {
      var init := counts[..|counts| - 1];
      ProgressStepsFacts(downloaded, total, init);
      var p := ProgressSteps(downloaded, total, counts);
      forall j | 0 <= j < |counts|
        ensures p[j] == ProgressReport(downloaded + Sum(counts[..j + 1]), total)
      {
        if j < |init| {
          assert init[..j + 1] == counts[..j + 1];
        } else {
          assert counts[..j + 1] == counts;
        }
      }
    }
  }

  /**
    * `downloaded` is the resume offset plus every reported count, and the
    * k-th call of `onProgress` receives the resume offset plus the first
    * k + 1 counts.
    */
  lemma {:induction false} ProgressIsRunningTotal(url: string, resume: int, log: seq<Step>)
    ensures var v := Replay(url, resume, log);
      && v.downloaded == resume + Sum(Reports(log))
      && |v.progress| == |Reports(log)|
      && forall k :: 0 <= k < |v.progress| ==> v.progress[k].downloaded == resume + Sum(Reports(log)[..k + 1])
  {
    if log != [] {
      var init := log[..|log| - 1];
      var s := log[|log| - 1];
      ProgressIsRunningTotal(url, resume, init);
      var v := Replay(url, resume, init);
      var r := Reports(init);
      if s.Chunk? {
        var c := s.call.reply.reported;
        var all := r + c;
        assert Reports(log) == all;
        SumAppend(r, c);
        ProgressStepsFacts(v.downloaded, v.totalBytes, c);
        var p := Replay(url, resume, log).progress;
        assert p == v.progress + ProgressSteps(v.downloaded, v.totalBytes, c);
        forall k | 0 <= k < |p|
          ensures p[k].downloaded == resume + Sum(all[..k + 1])
        {
          if k < |r| {
            assert all[..k + 1] == r[..k + 1];
          } else {
            var j := k - |r|;
            assert all[..k + 1] == r + c[..j + 1];
            SumAppend(r, c[..j + 1]);
          }
        }
      } else {
        assert Reports(log) == r;
      }
    }
  }

  // ---------------------------------------------------------------------------
  // The chunk requests
  // ---------------------------------------------------------------------------

  /** The chunk calls before position `k`. */
  function ChunksBefore(log: seq<Step>, k: nat): nat
    requires k <= |log|
  {
    if k == 0 then 0 else ChunksBefore(log, k - 1) + (if log[k - 1].Chunk? then 1 else 0)
  }

  /** The chunk calls of the log are counted by `chunkCalls`, and refreshes by `refreshCalls`. */
  lemma {:induction false} CallCounts(url: string, resume: int, log: seq<Step>)
    ensures Replay(url, resume, log).chunkCalls == ChunksBefore(log, |log|)
    ensures Replay(url, resume, log).refreshCalls == |log| - ChunksBefore(log, |log|)
  {
    if log != [] {
      var init := log[..|log| - 1];
      CallCounts(url, resume, init);
      ChunksBeforePrefix(log, |log| - 1);
    }
  }

  lemma {:induction false} ChunksBeforePrefix(log: seq<Step>, n: nat)
    requires n < |log|
    ensures ChunksBefore(log[..n], n) == ChunksBefore(log, n)
    decreases n
  {
    if n > 0 {
      ChunksBeforePrefix(log, n - 1);
      ChunksBeforePrefix2(log[..n], log, n - 1);
    }
  }

  lemma {:induction false} ChunksBeforePrefix2(a: seq<Step>, b: seq<Step>, n: nat)
    requires n <= |a| <= |b| && a == b[..|a|]
    ensures ChunksBefore(a, n) == ChunksBefore(b, n)
    decreases n
  {
    if n > 0 {
      ChunksBeforePrefix2(a, b, n - 1);
    }
  }

  /**
    * Chunk `k` asks for the bytes from the running total on, on the current
    * URL: the first chunk is a full `CHUNK_SIZE`, later ones a drawn size
    * between 95% and 100% of it; the range ends a size later or at the last
    * byte of a known total; the file is appended to except for the first
    * chunk of a fresh download; and the transport answered its call number
    * `ChunksBefore(log, k)`.
    */
  lemma ChunkRules(url: string, resume: int, env: Env, log: seq<Step>, k: nat)
    requires Admissible(env) && WF(url, resume, env, log) && k < |log| && log[k].Chunk?
    ensures var v := Replay(url, resume, log[..k]);
      var c := log[k].call;
      var start := c.request.startByte;
      && c.request.url == v.currentUrl
      && start == v.downloaded == resume + Sum(Reports(log[..k]))
      && c.request.append == (!v.isFirstChunk || resume > 0)
      && (v.isFirstChunk ==> c.size == ChunkSize)
      && MinChunkSize <= c.size <= ChunkSize
      && (v.totalBytes.None? ==> c.request.endByte == start + c.size - 1)
      && (v.totalBytes.Some? ==>
            c.request.endByte <= start + c.size - 1 && c.request.endByte <= v.totalBytes.value - 1
            && (c.request.endByte == start + c.size - 1 || c.request.endByte == v.totalBytes.value - 1))
      && c.reply == env.transport(ChunksBefore(log, k), c.request)
  {
    StepAt(url, resume, env, log, k);
    ProgressIsRunningTotal(url, resume, log[..k]);
    CallCounts(url, resume, log[..k]);
    ChunksBeforePrefix2(log[..k], log, k);
  }

  // ---------------------------------------------------------------------------
  // First chunk, validators and total
  // ---------------------------------------------------------------------------

  /** `isFirstChunk` holds exactly until a chunk is accepted. */
  lemma {:induction false} FirstChunkUntilAccepted(url: string, resume: int, log: seq<Step>)
    ensures Replay(url, resume, log).isFirstChunk <==> forall k :: 0 <= k < |log| ==> !IsAcceptedChunk(log[k])
  {
    if log != [] {
      var init := log[..|log| - 1];
      FirstChunkUntilAccepted(url, resume, init);
      assert forall k :: 0 <= k < |init| ==> log[k] == init[k];
    }
  }

  /** Before any chunk is accepted there are no validators and no total. */
  lemma {:induction false} NothingBeforeAcceptance(url: string, resume: int, log: seq<Step>)
    requires forall k :: 0 <= k < |log| ==> !IsAcceptedChunk(log[k])
    ensures var v := Replay(url, resume, log);
      v.eTag.None? && v.lastModified.None? && v.totalBytes.None? && v.bytesWithCurrentUrl == 0
  {
    if log != [] {
      NothingBeforeAcceptance(url, resume, log[..|log| - 1]);
    }
  }

  /** The validators are those of the first accepted chunk, whatever comes after it. */
  lemma {:induction false} ValidatorsFromFirstAccepted(url: string, resume: int, log: seq<Step>, k: nat)
    requires k < |log| && IsAcceptedChunk(log[k]) && forall j :: 0 <= j < k ==> !IsAcceptedChunk(log[j])
    ensures Replay(url, resume, log).eTag == log[k].call.reply.result.eTag
    ensures Replay(url, resume, log).lastModified == log[k].call.reply.result.lastModified
    decreases |log|
  {
    var init := log[..|log| - 1];
    if k == |log| - 1 {
      assert init == log[..k];
      FirstChunkUntilAccepted(url, resume, init);
    } else {
      ValidatorsFromFirstAccepted(url, resume, init, k);
      FirstChunkUntilAccepted(url, resume, init);
      assert init[k] == log[k];
    }
  }

  /** Once the total is known it never changes. */
  lemma {:induction false} TotalOnceKnownStays(url: string, resume: int, log: seq<Step>, n: nat)
    requires n <= |log| && Replay(url, resume, log[..n]).totalBytes.Some?
    ensures Replay(url, resume, log).totalBytes == Replay(url, resume, log[..n]).totalBytes
    decreases |log|
  {
    if n < |log| {
      var init := log[..|log| - 1];
      assert init[..n] == log[..n];
      TotalOnceKnownStays(url, resume, init, n);
    } else {
      assert log[..n] == log;
    }
  }

  /** A known total is the one an accepted chunk reported. */
  lemma {:induction false} TotalFromAcceptedChunk(url: string, resume: int, log: seq<Step>)
    ensures var v := Replay(url, resume, log);
      v.totalBytes.Some? ==>
        exists k :: 0 <= k < |log| && IsAcceptedChunk(log[k]) && log[k].call.reply.result.totalContentLength == v.totalBytes
  {
    if log != [] {
      var init := log[..|log| - 1];
      TotalFromAcceptedChunk(url, resume, init);
      var v := Replay(url, resume, log);
      if v.totalBytes.Some? {
        if Replay(url, resume, init).totalBytes.Some? {
          var k :| 0 <= k < |init| && IsAcceptedChunk(init[k])
            && init[k].call.reply.result.totalContentLength == Replay(url, resume, init).totalBytes;
          assert log[k] == init[k];
        } else {
          assert IsAcceptedChunk(log[|log| - 1]);
        }
      }
    }
  }

  // ---------------------------------------------------------------------------
  // The retry after a 403
  // ---------------------------------------------------------------------------

  /**
    * After a 403 and a refresh that returned a URL, the next step is a
    * chunk call on the fresh URL that starts where the running total stands:
    * past everything the failed call reported.  Nothing else about the
    * request moves: the same append flag, and the total is unchanged.
    */
  lemma RetryAfter403(url: string, resume: int, env: Env, log: seq<Step>, k: nat)
    requires WF(url, resume, env, log) && k + 2 < |log|
    requires log[k].Chunk? && log[k + 1].Reactive? && log[k + 1].freshUrl.Some?
    ensures log[k].call.reply.result.httpStatus == 403
    ensures log[k + 2].Chunk?
    ensures var failed := log[k].call.request;
      var retry := log[k + 2].call.request;
      && retry.url == log[k + 1].freshUrl.value
      && retry.startByte == failed.startByte + Sum(log[k].call.reply.reported)
      && retry.append == failed.append
      && Replay(url, resume, log[..k + 2]).totalBytes == Replay(url, resume, log[..k]).totalBytes
  {
    StepAt(url, resume, env, log, k);
    StepAt(url, resume, env, log, k + 1);
    StepAt(url, resume, env, log, k + 2);
    assert log[..k + 2][..k + 1] == log[..k + 1];
    assert log[..k + 2][k + 1] == log[k + 1];
  }

  /**
    * With a transport that reports nothing for an error status, the retry
    * after a 403 asks for the same bytes again.
    */
  lemma RetrySameStart(url: string, resume: int, env: Env, log: seq<Step>, k: nat)
    requires WF(url, resume, env, log) && k + 2 < |log|
    requires log[k].Chunk? && log[k + 1].Reactive? && log[k + 1].freshUrl.Some?
    requires ReportsOnlySuccess(log[k].call.reply)
    ensures log[k + 2].Chunk? && log[k + 2].call.request.startByte == log[k].call.request.startByte
  {
    RetryAfter403(url, resume, env, log, k);
  }

  /**
    * With the desktop transport as written, a 403 whose error page had a
    * body is retried past that body: the retried range skips bytes of the
    * file, and the error page stays in it.
    */
  lemma DesktopRetrySkipsErrorBody(url: string, resume: int, env: Env, log: seq<Step>, k: nat,
                                   chunkUrl: string, version: string, body: seq<nat>)
    requires WF(url, resume, env, log) && k + 2 < |log|
    requires log[k].Chunk? && log[k + 1].Reactive? && log[k + 1].freshUrl.Some?
    requires version != [] && forall q :: 0 <= q < |version| ==> !IsRegexSpace(version[q])
    requires body != [] && body[0] > 0
    requires log[k].call.reply == DesktopReply(chunkUrl, CurlRun(body, 0, HttpPrefix + version + " " + NatToString(403) + "\r\n"), None)
    ensures log[k + 2].Chunk?
    ensures log[k + 2].call.request.startByte == log[k].call.request.startByte + Sum(body) > log[k].call.request.startByte
  {
    DesktopReportsErrorBody(chunkUrl, version, body);
    RetryAfter403(url, resume, env, log, k);
  }

  // ---------------------------------------------------------------------------
  // extractCdnClient
  // ---------------------------------------------------------------------------

  lemma {:induction false} RunEndToEnd(s: string, i: nat, p: char -> bool)
    requires i <= |s| && forall q :: i <= q < |s| ==> p(s[q])
    ensures RunEnd(s, i, p) == |s|
    decreases |s| - i
  {
    if i < |s| {
      RunEndToEnd(s, i + 1, p);
    }
  }

  /** A match at `k` is a non-empty run of `[A-Z_]` right after `?c=` or `&c=`. */
  lemma CdnClientAtShape(url: string, k: nat)
    requires CdnClientAt(url, k).Some?
    ensures var r := CdnClientAt(url, k).value;
      && r != [] && (forall q :: 0 <= q < |r| ==> IsCdnClientChar(r[q]))
      && k + 3 + |r| <= |url| && (url[k] == '?' || url[k] == '&') && url[k + 1..k + 3 + |r|] == "c=" + r
  {
    var e := RunEnd(url, k + 3, IsCdnClientChar);
    assert url[k + 1..e] == "c=" + url[k + 3..e];
  }

  /** A match yields a non-empty run of `[A-Z_]` that follows `?c=` or `&c=` in the URL. */
  lemma CdnClientShape(url: string)
    ensures var r := ExtractCdnClient(url);
      r.Some? ==>
        && r.value != [] && (forall q :: 0 <= q < |r.value| ==> IsCdnClientChar(r.value[q]))
        && exists i :: 0 <= i && i + 3 + |r.value| <= |url|
             && (url[i] == '?' || url[i] == '&') && url[i + 1..i + 3 + |r.value|] == "c=" + r.value
  {
    var k := FirstAt(|url|, 0, (i: nat) => CdnClientAt(url, i));
    if k != -1 {
      CdnClientAtShape(url, k);
    }
  }

  /**
    * A URL whose first `?` or `&` starts `c=` and a run of `[A-Z_]` ended by
    * another character or the end yields that run.
    */
  lemma CdnClientOf(base: string, sep: char, client: string, rest: string)
    requires forall q :: 0 <= q < |base| ==> base[q] != '?' && base[q] != '&'
    requires sep == '?' || sep == '&'
    requires client != [] && forall q :: 0 <= q < |client| ==> IsCdnClientChar(client[q])
    requires rest == [] || !IsCdnClientChar(rest[0])
    ensures ExtractCdnClient(base + [sep] + "c=" + client + rest) == Some(client)
  {
    var url := base + [sep] + "c=" + client + rest;
    var at := (i: nat) => CdnClientAt(url, i);
    var n := |base|;
    var e := n + 3 + |client|;
    assert url[n] == sep && url[n + 1] == 'c' && url[n + 2] == '=' && url[n + 3] == client[0];
    forall q | n + 3 <= q < e
      ensures IsCdnClientChar(url[q])
    {
      assert url[q] == client[q - n - 3];
    }
    if rest == [] {
      assert e == |url|;
      RunEndToEnd(url, n + 3, IsCdnClientChar);
    } else {
      assert url[e] == rest[0];
      RunEndAt(url, n + 3, e, IsCdnClientChar);
    }
    assert url[n + 3..e] == client;
    forall i: nat | i < n
      ensures at(i).None?
    {
      assert url[i] == base[i];
    }
    assert at(n) == Some(client);
    var k := FirstAt(|url|, 0, at);
    assert k == n;
  }
}
