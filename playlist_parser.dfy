/**
  * Playlist page parsing: video ids are collected from the page text by up
  * to four successive scans, each run only when the earlier ones found
  * nothing, and kept once each in first-seen order.
  *
  * The regular expressions are hand-written scanners; each finds matches
  * left to right without overlap, as `Regex.findAll` does.
  */
module PlaylistParser {

  import opened Wrappers
  import opened Text
  import opened Domain

  // ---------------------------------------------------------------------------
  // First-seen de-duplication (a `LinkedHashSet`)
  // ---------------------------------------------------------------------------

  predicate Distinct(xs: seq<string>)
  {
    forall i, j :: 0 <= i < j < |xs| ==> xs[i] != xs[j]
  }

  /** The elements of `xs`, each kept at its first occurrence. */
  function Dedup(xs: seq<string>): (r: seq<string>)
    ensures forall x :: x in r <==> x in xs
    ensures Distinct(r)
    ensures |r| <= |xs|
    decreases |xs|
  {
    if xs == [] then []
    else
      var d := Dedup(xs[..|xs| - 1]);
      var x := xs[|xs| - 1];
      assert xs == xs[..|xs| - 1] + [x];
      if x in d then d else d + [x]
  }

  /** The index of the first occurrence of `x` in `xs`. */
  function FirstIndex(xs: seq<string>, x: string): (r: nat)
    requires x in xs
    ensures r < |xs| && xs[r] == x
    ensures forall k :: 0 <= k < r ==> xs[k] != x
  {
    if xs[0] == x then 0 else 1 + FirstIndex(xs[1..], x)
  }

  lemma FirstIndexPrefix(p: seq<string>, x: string, y: string)
    requires y in p
    ensures FirstIndex(p + [x], y) == FirstIndex(p, y)
  {
    var i := FirstIndex(p, y);
    var j := FirstIndex(p + [x], y);
    assert (p + [x])[i] == y;
    assert j <= i;
    assert p[j] == y;
  }

  /** The ids come out in the order of their first occurrences. */
  lemma {:induction false} DedupOrder(xs: seq<string>)
    ensures forall i, j :: 0 <= i < j < |Dedup(xs)| ==>
      FirstIndex(xs, Dedup(xs)[i]) < FirstIndex(xs, Dedup(xs)[j])
    decreases |xs|
  {
    if xs != [] {
      var p := xs[..|xs| - 1];
      var x := xs[|xs| - 1];
      assert xs == p + [x];
      DedupOrder(p);
      var d := Dedup(p);
      var r := Dedup(xs);
      assert r == if x in d then d else d + [x];
      forall i, j | 0 <= i < j < |r| ensures FirstIndex(xs, r[i]) < FirstIndex(xs, r[j]) {
        assert r[i] == d[i];
        FirstIndexPrefix(p, x, d[i]);
        if j < |d| {
          assert r[j] == d[j];
          FirstIndexPrefix(p, x, d[j]);
        } else {
          assert r[j] == x && x !in p;
          assert xs[|p|] == x;
        }
      }
    }
  }

  /** Adding to a set that is already free of duplicates, one element at a time. */
  lemma DedupOfDistinct(xs: seq<string>)
    requires Distinct(xs)
    ensures Dedup(xs) == xs
    decreases |xs|
  {
    if xs != [] {
      var p := xs[..|xs| - 1];
      assert Distinct(p);
      DedupOfDistinct(p);
    }
  }

  /**
    * `found.forEach { ids.add(it) }` on a set holding `ids`: each id not yet
    * present is appended.
    */
  method AddEach(ids: seq<string>, found: seq<string>) returns (r: seq<string>)
    requires Distinct(ids)
    ensures r == Dedup(ids + found)
  {
    r := ids;
    DedupOfDistinct(ids);
    assert ids + found[..0] == ids;
    var k := 0;
    while k < |found|
      invariant 0 <= k <= |found|
      invariant r == Dedup(ids + found[..k])
    {
      ghost var before := ids + found[..k];
      assert (ids + found[..k + 1])[..|before|] == before;
      assert (ids + found[..k + 1])[|before|] == found[k];
      if found[k] !in r {
        r := r + [found[k]];
      }
      k := k + 1;
    }
    assert found[..|found|] == found;
  }

  // ---------------------------------------------------------------------------
  // The scanners
  // ---------------------------------------------------------------------------

  /** A match: the captured id and the index just past the match. */
  datatype Hit = Hit(id: string, end: nat)

  /** The three patterns of the parser. */
  datatype IdRegex =
    | Renderer   // "playlistVideoRenderer"\s*:\s*\{[^}]*?"videoId"\s*:\s*"(id)"
    | Broad      // "videoId"\s*:\s*"(id)"
    | WatchLink  // /watch\?v=(id)(?:&|\\u0026)list=

  const VideoIdKey: string := "\"videoId\""
  const RendererKey: string := "\"playlistVideoRenderer\""

  /** `"videoId"\s*:\s*"([a-zA-Z0-9_-]{11})"` at `j`. */
  function VideoIdEntryAt(html: string, j: nat): (r: Option<Hit>)
    ensures r.Some? ==> StartsAt(html, j, VideoIdKey) && j < r.value.end <= |html| && IsVideoId(r.value.id)
  {
    if !StartsAt(html, j, VideoIdKey) then None
    else
      var colon := RunEnd(html, j + |VideoIdKey|, IsRegexSpace);
      if colon == |html| || html[colon] != ':' then None
      else
        var q := RunEnd(html, colon + 1, IsRegexSpace);
        if q + 13 <= |html| && html[q] == '"' && IsVideoId(html[q + 1..q + 12]) && html[q + 12] == '"' then
          Some(Hit(html[q + 1..q + 12], q + 13))
        else None
  }

  predicate NotClosing(c: char)
  {
    c != '}'
  }

  /**
    * The lazy `[^}]*?` followed by a `"videoId"` entry: the first index at
    * or after `j`, with no '}' before it, where an entry matches, or -1.
    */
  function LazyEntryStart(html: string, j: nat): (k: int)
    requires j <= |html|
    ensures k == -1 || j <= k <= |html|
    decreases |html| - j
  {
    if VideoIdEntryAt(html, j).Some? then j
    else if j < |html| && html[j] != '}' then LazyEntryStart(html, j + 1)
    else -1
  }

  /** The lazy match is the leftmost entry, and no '}' lies before it. */
  lemma {:induction false} LazyEntryStartFound(html: string, j: nat)
    requires j <= |html|
    requires LazyEntryStart(html, j) != -1
    ensures VideoIdEntryAt(html, LazyEntryStart(html, j)).Some?
    ensures forall m :: j <= m < LazyEntryStart(html, j) ==> html[m] != '}' && VideoIdEntryAt(html, m).None?
    decreases |html| - j
  {
    if VideoIdEntryAt(html, j).None? {
      assert j < |html| && html[j] != '}';
      var k := LazyEntryStart(html, j + 1);
      assert LazyEntryStart(html, j) == k;
      LazyEntryStartFound(html, j + 1);
      forall m | j <= m < k ensures html[m] != '}' && VideoIdEntryAt(html, m).None? {
        if m == j {
        }
      }
    }
  }

  /** -1 means no entry starts anywhere up to and including the first '}'. */
  lemma {:induction false} LazyEntryStartNone(html: string, j: nat)
    requires j <= |html|
    requires LazyEntryStart(html, j) == -1
    ensures forall m :: j <= m <= RunEnd(html, j, NotClosing) ==> VideoIdEntryAt(html, m).None?
    decreases |html| - j
  {
    assert VideoIdEntryAt(html, j).None?;
    if j < |html| && html[j] != '}' {
      assert NotClosing(html[j]);
      assert RunEnd(html, j, NotClosing) == RunEnd(html, j + 1, NotClosing);
      LazyEntryStartNone(html, j + 1);
    } else {
      assert RunEnd(html, j, NotClosing) == j;
    }
  }

  /** `"playlistVideoRenderer"\s*:\s*\{` at `i`, then the lazy entry. */
  function RendererAt(html: string, i: nat): (r: Option<Hit>)
    ensures r.Some? ==> StartsAt(html, i, RendererKey) && i < r.value.end <= |html| && IsVideoId(r.value.id)
  {
    if !StartsAt(html, i, RendererKey) then None
    else
      var colon := RunEnd(html, i + |RendererKey|, IsRegexSpace);
      if colon == |html| || html[colon] != ':' then None
      else
        var brace := RunEnd(html, colon + 1, IsRegexSpace);
        if brace == |html| || html[brace] != '{' then None
        else
          var k := LazyEntryStart(html, brace + 1);
          if k == -1 then None else VideoIdEntryAt(html, k)
  }

  const WatchMarker: string := "/watch?v="

  /** `/watch\?v=([a-zA-Z0-9_-]{11})(?:&|\\u0026)list=` at `i`. */
  function WatchLinkAt(html: string, i: nat): (r: Option<Hit>)
    ensures r.Some? ==> StartsAt(html, i, WatchMarker) && i < r.value.end <= |html| && IsVideoId(r.value.id)
    ensures r.Some? ==> i + 20 <= |html| && r.value.id == html[i + 9..i + 20]
    ensures r.Some? ==> StartsAt(html, i + 20, "&list=") || StartsAt(html, i + 20, "\\u0026list=")
  {
    if !StartsAt(html, i, WatchMarker) || i + 20 > |html| || !IsVideoId(html[i + 9..i + 20]) then None
    else if StartsAt(html, i + 20, "&list=") then Some(Hit(html[i + 9..i + 20], i + 26))
    else if StartsAt(html, i + 20, "\\u0026list=") then Some(Hit(html[i + 9..i + 20], i + 31))
    else None
  }

  function MatchAt(html: string, i: nat, re: IdRegex): (r: Option<Hit>)
    ensures r.Some? ==> i < r.value.end <= |html| && IsVideoId(r.value.id)
  {
    match re
    case Renderer => RendererAt(html, i)
    case Broad => VideoIdEntryAt(html, i)
    case WatchLink => WatchLinkAt(html, i)
  }

  /** `findAll(html)` from `from`: the ids of successive non-overlapping leftmost matches. */
  function FindAll(html: string, re: IdRegex, from: nat): (r: seq<string>)
    decreases |html| + 1 - from
  {
    if from > |html| then []
    else match MatchAt(html, from, re)
      case Some(h) => [h.id] + FindAll(html, re, h.end)
      case None => FindAll(html, re, from + 1)
  }

  /** Every id a scan returns is eleven id characters. */
  lemma {:induction false} FindAllIds(html: string, re: IdRegex, from: nat)
    ensures forall k :: 0 <= k < |FindAll(html, re, from)| ==> IsVideoId(FindAll(html, re, from)[k])
    decreases |html| + 1 - from
  {
    if from <= |html| {
      var m := MatchAt(html, from, re);
      if m.Some? {
        FindAllIds(html, re, m.value.end);
        assert FindAll(html, re, from) == [m.value.id] + FindAll(html, re, m.value.end);
      } else {
        FindAllIds(html, re, from + 1);
      }
    }
  }

  /** A scan that finds nothing passes no match. */
  lemma {:induction false} FindAllEmptyNoMatch(html: string, re: IdRegex, from: nat, i: nat)
    requires FindAll(html, re, from) == []
    requires from <= i <= |html|
    ensures MatchAt(html, i, re).None?
    decreases i - from
  {
    var m := MatchAt(html, from, re);
    if m.Some? {
      assert false;
    } else if from < i {
      assert FindAll(html, re, from) == FindAll(html, re, from + 1);
      FindAllEmptyNoMatch(html, re, from + 1, i);
    }
  }

  /** The scan finds nothing exactly when the pattern matches nowhere at or after `from`. */
  lemma FindAllEmpty(html: string, re: IdRegex, from: nat)
    ensures FindAll(html, re, from) == [] <==> forall i :: from <= i <= |html| ==> MatchAt(html, i, re).None?
  {
    if FindAll(html, re, from) == [] {
      forall i | from <= i <= |html| ensures MatchAt(html, i, re).None? {
        FindAllEmptyNoMatch(html, re, from, i);
      }
    } else if forall i :: from <= i <= |html| ==> MatchAt(html, i, re).None? {
      FindAllSkip(html, re, from, |html| + 1);
      assert false;
    }
  }

  /** Positions without a match are skipped. */
  lemma {:induction false} FindAllSkip(html: string, re: IdRegex, from: nat, to: nat)
    requires from <= to <= |html| + 1
    requires forall i :: from <= i < to ==> MatchAt(html, i, re).None?
    ensures FindAll(html, re, from) == FindAll(html, re, to)
    decreases |html| + 1 - from
  {
    if from < to {
      var m := MatchAt(html, from, re);
      assert m.None?;
      assert FindAll(html, re, from) == FindAll(html, re, from + 1);
      FindAllSkip(html, re, from + 1, to);
    }
  }

  // ---------------------------------------------------------------------------
  // parsePlaylistIds
  // ---------------------------------------------------------------------------

  function ToVideoIds(ids: seq<string>): (r: seq<VideoId>)
    ensures |r| == |ids| && forall k :: 0 <= k < |ids| ==> r[k] == VideoId(ids[k])
  {
    seq(|ids|, k requires 0 <= k < |ids| => VideoId(ids[k]))
  }

  /** The ids the scans collect: each scan runs only if every earlier one found nothing. */
  function CollectedIds(html: string): seq<string>
  {
    var s1 := Dedup(FindAll(html, Renderer, 0));
    var s2 := if s1 == [] then Dedup(FindAll(html, Broad, 0)) else s1;
    var s3 := if s2 == [] then Dedup(FindAll(html, WatchLink, 0)) else s2;
    if s3 == [] then Dedup(FindAll(html, Broad, 0)) else s3
  }

  function PlaylistIds(html: string): Outcome<seq<VideoId>>
  {
    var ids := CollectedIds(html);
    if ids == [] then Failure(PlaylistPrivate) else Success(ToVideoIds(ids))
  }

  /** `parsePlaylistIds`: the guarded passes over one mutable id set. */
  method ParsePlaylistIds(html: string) returns (r: Outcome<seq<VideoId>>)
    ensures r == PlaylistIds(html)
  {
    var ids: seq<string> := [];
    assert [] + FindAll(html, Renderer, 0) == FindAll(html, Renderer, 0);
    ids := AddEach(ids, FindAll(html, Renderer, 0));
    if |ids| == 0 {
      assert [] + FindAll(html, Broad, 0) == FindAll(html, Broad, 0);
      ids := AddEach(ids, FindAll(html, Broad, 0));
    }
    if |ids| == 0 {
      assert [] + FindAll(html, WatchLink, 0) == FindAll(html, WatchLink, 0);
      ids := AddEach(ids, FindAll(html, WatchLink, 0));
    }
    if |ids| == 0 {
      assert [] + FindAll(html, Broad, 0) == FindAll(html, Broad, 0);
      ids := AddEach(ids, FindAll(html, Broad, 0));
    }
    if |ids| == 0 {
      return Failure(PlaylistPrivate);
    }
    return Success(ToVideoIds(ids));
  }

  /** Every returned id is eleven id characters, and none is returned twice. */
  lemma PlaylistIdsWellFormed(html: string)
    ensures PlaylistIds(html).Success? ==>
      var v := PlaylistIds(html).value;
      && (forall k :: 0 <= k < |v| ==> IsVideoId(v[k].value))
      && (forall i, j :: 0 <= i < j < |v| ==> v[i] != v[j])
  {
    var ids := CollectedIds(html);
    FindAllIds(html, Renderer, 0);
    FindAllIds(html, Broad, 0);
    FindAllIds(html, WatchLink, 0);
    forall x | x in ids ensures IsVideoId(x) {
      if x in FindAll(html, Renderer, 0) {
      } else if x in FindAll(html, Broad, 0) {
      } else {
        assert x in FindAll(html, WatchLink, 0);
      }
    }
  }

  /** `PlaylistPrivate` exactly when none of the three patterns matches anywhere. */
  lemma PlaylistPrivateIff(html: string)
    ensures PlaylistIds(html) == Failure(PlaylistPrivate) <==>
      forall i :: 0 <= i <= |html| ==>
        MatchAt(html, i, Renderer).None? && MatchAt(html, i, Broad).None? && MatchAt(html, i, WatchLink).None?
  {
    var r := FindAll(html, Renderer, 0);
    var b := FindAll(html, Broad, 0);
    var w := FindAll(html, WatchLink, 0);
    FindAllEmpty(html, Renderer, 0);
    FindAllEmpty(html, Broad, 0);
    FindAllEmpty(html, WatchLink, 0);
    assert r == [] <==> Dedup(r) == [];
    assert b == [] <==> Dedup(b) == [];
    assert w == [] <==> Dedup(w) == [];
  }

  /** A later scan's ids are returned only when every earlier scan found nothing. */
  lemma StrategyOrder(html: string)
    ensures FindAll(html, Renderer, 0) != [] ==> CollectedIds(html) == Dedup(FindAll(html, Renderer, 0))
    ensures FindAll(html, Renderer, 0) == [] && FindAll(html, Broad, 0) != [] ==>
      CollectedIds(html) == Dedup(FindAll(html, Broad, 0))
    ensures FindAll(html, Renderer, 0) == [] && FindAll(html, Broad, 0) == [] ==>
      CollectedIds(html) == Dedup(FindAll(html, WatchLink, 0))
  {
    var r := FindAll(html, Renderer, 0);
    var b := FindAll(html, Broad, 0);
    assert r == [] <==> Dedup(r) == [];
    assert b == [] <==> Dedup(b) == [];
  }

  // ---------------------------------------------------------------------------
  // The parser's example
  // ---------------------------------------------------------------------------

  /** The entry `"videoId":"x"` as the page writes it. */
  function VideoIdEntry(x: string): string
  {
    VideoIdKey + ":\"" + x + "\""
  }

  lemma EntryShape(x: string)
    requires |x| == 11
    ensures var e := VideoIdEntry(x);
      |e| == 23 && e[..9] == VideoIdKey && e[9] == ':' && e[10] == '"' && e[11..22] == x && e[22] == '"'
  {
  }

  /** An entry written out at `j` is matched there. */
  lemma EntryMatches(html: string, j: nat, x: string)
    requires IsVideoId(x)
    requires j + 23 <= |html| && html[j..j + 23] == VideoIdEntry(x)
    ensures VideoIdEntryAt(html, j) == Some(Hit(x, j + 23))
  {
    var e := VideoIdEntry(x);
    EntryShape(x);
    assert html[j..j + 9] == e[..9];
    assert html[j + 9] == e[9];
    assert html[j + 10] == e[10];
    assert html[j + 11..j + 22] == x by {
      forall k | 0 <= k < 11 ensures html[j + 11..j + 22][k] == x[k] {
        assert html[j + 11 + k] == html[j..j + 23][11 + k] == e[11 + k] == e[11..22][k];
      }
    }
    assert html[j + 22] == e[22];
    assert RunEnd(html, j + 9, IsRegexSpace) == j + 9;
    assert RunEnd(html, j + 10, IsRegexSpace) == j + 10;
  }

  /** No broad match starts on a quote-free stretch. */
  lemma NoBroadOnQuoteFree(html: string, from: nat, to: nat)
    requires from <= to <= |html|
    requires forall i :: from <= i < to ==> html[i] != '"'
    ensures forall i :: from <= i < to ==> MatchAt(html, i, Broad).None?
  {
    forall i | from <= i < to ensures MatchAt(html, i, Broad).None? {
      if i + 9 <= |html| {
        assert html[i..i + 9][0] == html[i];
      }
      assert !StartsAt(html, i, VideoIdKey);
    }
  }

  /** An entry preceded only by quote-free text is the next broad match. */
  lemma BroadEntryNext(html: string, from: nat, junk: string, x: string, post: string)
    requires from <= |html|
    requires html[from..] == junk + (VideoIdEntry(x) + post)
    requires '"' !in junk
    requires IsVideoId(x)
    ensures FindAll(html, Broad, from) == [x] + FindAll(html, Broad, from + |junk| + 23)
  {
    EntryShape(x);
    var j := from + |junk|;
    forall i | from <= i < j ensures html[i] != '"' {
      assert html[i] == html[from..][i - from] == junk[i - from];
    }
    NoBroadOnQuoteFree(html, from, j);
    FindAllSkip(html, Broad, from, j);
    assert html[j..j + 23] == VideoIdEntry(x) by {
      assert html[from..][|junk|..|junk| + 23] == VideoIdEntry(x);
    }
    EntryMatches(html, j, x);
  }

  /** Quote-free text holds no broad match. */
  lemma BroadNoneAfter(html: string, from: nat)
    requires from <= |html|
    requires '"' !in html[from..]
    ensures FindAll(html, Broad, from) == []
  {
    forall i | from <= i <= |html| ensures MatchAt(html, i, Broad).None? {
      if i < |html| {
        assert html[i] == html[from..][i - from];
        if i + 9 <= |html| {
          assert html[i..i + 9][0] == html[i];
        }
      }
      assert !StartsAt(html, i, VideoIdKey);
    }
    FindAllEmpty(html, Broad, from);
  }

  /** Text without a 'p' holds no renderer match. */
  lemma NoRendererWithoutP(html: string)
    requires 'p' !in html
    ensures FindAll(html, Renderer, 0) == []
  {
    forall i | 0 <= i <= |html| ensures MatchAt(html, i, Renderer).None? {
      if i + 23 <= |html| {
        assert html[i..i + 23][1] == html[i + 1];
        assert html[i + 1] != 'p';
        assert RendererKey[1] == 'p';
      }
      assert !StartsAt(html, i, RendererKey);
    }
    FindAllEmpty(html, Renderer, 0);
  }

  const ExampleIdA: string := "abc123xyz00"
  const ExampleIdB: string := "def456uvw11"

  /** Three lines, one entry each, the first id repeated on the third. */
  function ThreeEntryPage(a: string, b: string): string
  {
    "{" + (VideoIdEntry(a) + ("}\n{" + (VideoIdEntry(b) + ("}\n{" + (VideoIdEntry(a) + "}")))))
  }

  /** Dropping a written-out prefix leaves what follows it. */
  lemma DropPrefix(html: string, from: nat, p: string, q: string)
    requires from <= |html| && html[from..] == p + q
    ensures html[from + |p|..] == q
  {
    assert html[from + |p|..] == html[from..][|p|..];
  }

  /** An entry right after an opening brace is the first broad match. */
  lemma BroadEntryAfterBrace(x: string, post: string)
    requires IsVideoId(x)
    ensures FindAll("{" + (VideoIdEntry(x) + post), Broad, 0) == [x] + FindAll("{" + (VideoIdEntry(x) + post), Broad, 24)
  {
    var html := "{" + (VideoIdEntry(x) + post);
    assert html[0..] == html;
    BroadEntryNext(html, 0, "{", x, post);
  }

  lemma ThreeEntryFirst(a: string, b: string)
    requires IsVideoId(a) && IsVideoId(b)
    ensures FindAll(ThreeEntryPage(a, b), Broad, 0) == [a] + FindAll(ThreeEntryPage(a, b), Broad, 24)
  {
    BroadEntryAfterBrace(a, "}\n{" + (VideoIdEntry(b) + ("}\n{" + (VideoIdEntry(a) + "}"))));
  }

  lemma ThreeEntrySecond(a: string, b: string)
    requires IsVideoId(a) && IsVideoId(b)
    ensures FindAll(ThreeEntryPage(a, b), Broad, 24) == [b] + FindAll(ThreeEntryPage(a, b), Broad, 50)
  {
    var html := ThreeEntryPage(a, b);
    var e := VideoIdEntry(a);
    var f := VideoIdEntry(b);
    EntryShape(a);
    EntryShape(b);
    assert html[0..] == html;
    DropPrefix(html, 0, "{", e + ("}\n{" + (f + ("}\n{" + (e + "}")))));
    DropPrefix(html, 1, e, "}\n{" + (f + ("}\n{" + (e + "}"))));
    BroadEntryNext(html, 24, "}\n{", b, "}\n{" + (e + "}"));
  }

  lemma ThreeEntryThird(a: string, b: string)
    requires IsVideoId(a) && IsVideoId(b)
    ensures FindAll(ThreeEntryPage(a, b), Broad, 50) == [a]
  {
    var html := ThreeEntryPage(a, b);
    var e := VideoIdEntry(a);
    var f := VideoIdEntry(b);
    EntryShape(a);
    EntryShape(b);
    assert html[0..] == html;
    DropPrefix(html, 0, "{", e + ("}\n{" + (f + ("}\n{" + (e + "}")))));
    DropPrefix(html, 1, e, "}\n{" + (f + ("}\n{" + (e + "}"))));
    DropPrefix(html, 24, "}\n{", f + ("}\n{" + (e + "}")));
    DropPrefix(html, 27, f, "}\n{" + (e + "}"));
    BroadEntryNext(html, 50, "}\n{", a, "}");
    DropPrefix(html, 50, "}\n{", e + "}");
    DropPrefix(html, 53, e, "}");
    BroadNoneAfter(html, 76);
    assert [a] + [] == [a];
  }

  /** The broad pattern finds the three entries in order, the repeat included. */
  lemma ThreeEntryScan(a: string, b: string)
    requires IsVideoId(a) && IsVideoId(b)
    ensures FindAll(ThreeEntryPage(a, b), Broad, 0) == [a, b, a]
  {
    ThreeEntryFirst(a, b);
    ThreeEntrySecond(a, b);
    ThreeEntryThird(a, b);
    assert [b] + [a] == [b, a];
    assert [a] + [b, a] == [a, b, a];
  }

  /** A repeat of the first id is dropped. */
  lemma DedupRepeat(a: string, b: string)
    requires a != b
    ensures Dedup([a, b, a]) == [a, b]
  {
    assert [a][..0] == [];
    assert Dedup([a]) == [] + [a] == [a];
    assert [a, b][..1] == [a];
    assert Dedup([a, b]) == [a] + [b] == [a, b];
    assert [a, b, a][..2] == [a, b];
  }

  /** Two distinct ids without a 'p': the renderer scan finds nothing, the broad scan de-duplicates. */
  lemma ThreeEntryIds(a: string, b: string)
    requires IsVideoId(a) && IsVideoId(b) && a != b
    requires 'p' !in a && 'p' !in b
    ensures PlaylistIds(ThreeEntryPage(a, b)) == Success([VideoId(a), VideoId(b)])
  {
    var html := ThreeEntryPage(a, b);
    assert 'p' !in VideoIdKey;
    assert 'p' !in html;
    NoRendererWithoutP(html);
    ThreeEntryScan(a, b);
    DedupRepeat(a, b);
    assert Dedup(FindAll(html, Renderer, 0)) == [];
    assert CollectedIds(html) == [a, b];
    var v := ToVideoIds([a, b]);
    assert v == [VideoId(a), VideoId(b)];
  }

  /** The parser's example: two ids, "abc123xyz00" first. */
  lemma ExamplePlaylist()
    ensures PlaylistIds(ThreeEntryPage(ExampleIdA, ExampleIdB)) == Success([VideoId(ExampleIdA), VideoId(ExampleIdB)])
  {
    assert IsVideoId(ExampleIdA) && IsVideoId(ExampleIdB);
    ThreeEntryIds(ExampleIdA, ExampleIdB);
  }
}
