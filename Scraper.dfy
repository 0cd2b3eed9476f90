/**
 * The standalone chapter scraper of scraper/main.go: the feed de-duplication, file and
 * directory naming, the URLs it requests, the choice of image quality, and the counter
 * that stops it after too many rate-limited answers. HTTP, sleeps and the file system
 * are outside the model; what an image download returns is a parameter.
 */
module Scraper {
  import opened Results
  import opened Strconv
  import opened ApiModels

  const BaseURL := "https://api.mangadex.org"

  // ---------------------------------------------------------------------------
  // Strings: strings.TrimSpace and toFilename
  // ---------------------------------------------------------------------------

  /** Go's `unicode.IsSpace`. */
  predicate IsSpace(c: char) {
    c == ' ' || c == '\t' || c == '\n' || c == '\r' || c as int == 0x0B || c as int == 0x0C ||
    c as int == 0x85 || c as int == 0xA0 || c as int == 0x1680 ||
    (0x2000 <= c as int <= 0x200A) || c as int == 0x2028 || c as int == 0x2029 ||
    c as int == 0x202F || c as int == 0x205F || c as int == 0x3000
  }

  /** `s` without its leading white space. */
  function TrimLeft(s: string): string
    decreases |s|
  {
    if s != [] && IsSpace(s[0]) then TrimLeft(s[1..]) else s
  }

  /** `s` without its trailing white space. */
  function TrimRight(s: string): string
    decreases |s|
  {
    if s != [] && IsSpace(s[|s| - 1]) then TrimRight(s[..|s| - 1]) else s
  }

  /** `TrimLeft` removes a run of white space from the front and stops at the first other character. */
  lemma {:induction false} TrimLeftSpec(s: string)
    ensures var r := TrimLeft(s);
      |r| <= |s| && r == s[|s| - |r|..] &&
      (forall i :: 0 <= i < |s| - |r| ==> IsSpace(s[i])) &&
      (r == [] || !IsSpace(r[0]))
    decreases |s|
  {
    if s != [] && IsSpace(s[0]) {
      TrimLeftSpec(s[1..]);
    }
  }

  /** `TrimRight` removes a run of white space from the back and stops at the last other character. */
  lemma {:induction false} TrimRightSpec(s: string)
    ensures var r := TrimRight(s);
      |r| <= |s| && r == s[..|r|] &&
      (forall i :: |r| <= i < |s| ==> IsSpace(s[i])) &&
      (r == [] || !IsSpace(r[|r| - 1]))
    decreases |s|
  {
    if s != [] && IsSpace(s[|s| - 1]) {
      TrimRightSpec(s[..|s| - 1]);
    }
  }

  /** Go's `strings.TrimSpace`. */
  function TrimSpace(s: string): (r: string)
    ensures |r| <= |s|
    ensures s == [] || (!IsSpace(s[0]) && !IsSpace(s[|s| - 1])) ==> r == s
  {
    TrimLeftSpec(s);
    TrimRightSpec(TrimLeft(s));
    TrimRight(TrimLeft(s))
  }

  /** `TrimSpace` keeps a middle slice of its input and drops only white space around it. */
  lemma TrimSpaceSlice(s: string)
    ensures var r, i := TrimSpace(s), |s| - |TrimLeft(s)|;
      0 <= i <= |s| - |r| && r == s[i..i + |r|] &&
      (forall j :: 0 <= j < i ==> IsSpace(s[j])) &&
      (forall j :: i + |r| <= j < |s| ==> IsSpace(s[j]))
  {
    var l := TrimLeft(s);
    var r := TrimRight(l);
    TrimLeftSpec(s);
    TrimRightSpec(l);
    var i := |s| - |l|;
    forall j | i + |r| <= j < |s|
      ensures IsSpace(s[j])
    {
      assert s[j] == l[j - i];
    }
  }

  /** The result of `TrimSpace` neither starts nor ends with white space. */
  lemma TrimSpaceEnds(s: string)
    ensures var r := TrimSpace(s);
      r == [] || (!IsSpace(r[0]) && !IsSpace(r[|r| - 1]))
  {
    var l := TrimLeft(s);
    var r := TrimRight(l);
    TrimLeftSpec(s);
    TrimRightSpec(l);
    if r != [] {
      assert r[0] == l[0];
    }
  }

  /** Trimming twice is trimming once. */
  lemma TrimSpaceIdempotent(s: string)
    ensures TrimSpace(TrimSpace(s)) == TrimSpace(s)
  {
    var r := TrimSpace(s);
    TrimSpaceEnds(s);
    assert TrimLeft(r) == r;
    assert TrimRight(r) == r;
  }

  /** The characters `toFilename` keeps: ASCII letters and digits, and RE2's `\s` (tab, newline, form feed, carriage return, space). */
  predicate Kept(c: char) {
    ('a' <= c <= 'z') || ('A' <= c <= 'Z') || ('0' <= c <= '9') ||
    c == '\t' || c == '\n' || c as int == 0x0C || c == '\r' || c == ' '
  }

  /** `toFilename`: every character outside the kept class is deleted. */
  function ToFilename(s: string): (r: string)
    ensures forall i :: 0 <= i < |r| ==> Kept(r[i])
    ensures |r| <= |s|
    decreases |s|
  {
    if s == [] then []
    else (if Kept(s[0]) then [s[0]] else []) + ToFilename(s[1..])
  }

  /** A name made only of kept characters is left as it is. */
  lemma {:induction false} ToFilenameKeepsClean(s: string)
    requires forall i :: 0 <= i < |s| ==> Kept(s[i])
    ensures ToFilename(s) == s
    decreases |s|
  {
    if s != [] {
      ToFilenameKeepsClean(s[1..]);
    }
  }

  /** `toFilename` is idempotent. */
  lemma ToFilenameIdempotent(s: string)
    ensures ToFilename(ToFilename(s)) == ToFilename(s)
  {
    ToFilenameKeepsClean(ToFilename(s));
  }

  /** `toFilename` works character by character: it distributes over concatenation. */
  lemma {:induction false} ToFilenameConcat(a: string, b: string)
    ensures ToFilename(a + b) == ToFilename(a) + ToFilename(b)
    decreases |a|
  {
    if a != [] {
      var head := if Kept(a[0]) then [a[0]] else [];
      assert (a + b)[0] == a[0];
      assert (a + b)[1..] == a[1..] + b;
      ToFilenameConcat(a[1..], b);
      assert ToFilename(a + b) == head + (ToFilename(a[1..]) + ToFilename(b));
      assert head + (ToFilename(a[1..]) + ToFilename(b)) == (head + ToFilename(a[1..])) + ToFilename(b);
    } else {
      assert a + b == b;
    }
  }

  /** The kept characters are exactly the kept ones of the input, in order: a deleted character is never kept. */
  lemma {:induction false} ToFilenameDropsOnlyUnkept(s: string)
    ensures |ToFilename(s)| == |s| <==> forall i :: 0 <= i < |s| ==> Kept(s[i])
    decreases |s|
  {
    if s != [] {
      ToFilenameDropsOnlyUnkept(s[1..]);
      if !Kept(s[0]) {
        assert |ToFilename(s)| <= |s| - 1;
      }
    }
  }

  // ---------------------------------------------------------------------------
  // URLs and paths
  // ---------------------------------------------------------------------------

  function MangaFeedURL(id: string): (u: string)
    ensures |u| == |BaseURL| + |id| + 12
    ensures u[..|BaseURL| + 7] == BaseURL + "/manga/"
    ensures u[|BaseURL| + 7..|u| - 5] == id && u[|u| - 5..] == "/feed"
  {
    BaseURL + "/manga/" + id + "/feed"
  }

  function ChapterURL(id: string): (u: string)
    ensures |u| == |BaseURL| + |id| + 16
    ensures u[..|BaseURL| + 16] == BaseURL + "/at-home/server/"
    ensures u[|BaseURL| + 16..] == id
  {
    BaseURL + "/at-home/server/" + id
  }

  /** Different mangas and chapters are requested at different URLs. */
  lemma URLsInjective(a: string, b: string)
    ensures MangaFeedURL(a) == MangaFeedURL(b) ==> a == b
    ensures ChapterURL(a) == ChapterURL(b) ==> a == b
  {
  }

  /** The URL of one page image: the server, then quality, hash and file name. */
  function ScanImageURL(baseUrl: string, hash: string, quality: string, filename: string): (u: string)
    ensures |u| == |baseUrl| + |quality| + |hash| + |filename| + 3
    ensures u[..|baseUrl| + |quality| + 2] == baseUrl + "/" + quality + "/"
    ensures u[|baseUrl| + |quality| + 2..|u| - |filename| - 1] == hash
    ensures u[|u| - |filename| - 1..] == "/" + filename
  {
    baseUrl + "/" + quality + "/" + hash + "/" + filename
  }

  /** `filepath.Join` of two non-empty names, without the lexical clean-up. */
  function JoinPath(dir: string, name: string): string {
    dir + "/" + name
  }

  /** A de-duplicated chapter, its fields trimmed. */
  datatype Scraped = Scraped(title: string, volume: string, chapter: string, id: string)

  function VolumeDir(ch: Scraped): string {
    "Volume " + ToFilename(ch.volume)
  }

  function ChapterDir(ch: Scraped): string {
    if ch.title != "" then "Chapter " + ToFilename(ch.chapter) + " - " + ToFilename(ch.title)
    else "Chapter " + ToFilename(ch.chapter)
  }

  /** The directory a chapter's images go to. */
  function OutputDir(destination: string, ch: Scraped): (r: string)
    ensures destination <= r
  {
    JoinPath(JoinPath(destination, VolumeDir(ch)), ChapterDir(ch))
  }

  /**
   * The output directory is always two levels below the destination (no name a chapter
   * carries can add a separator), and its last level names the title, after " - ",
   * exactly when the chapter has one.
   */
  lemma OutputDirShape(destination: string, ch: Scraped)
    ensures OutputDir(destination, ch) == destination + "/" + VolumeDir(ch) + "/" + ChapterDir(ch)
    ensures '/' !in VolumeDir(ch) && '/' !in ChapterDir(ch)
    ensures '-' in ChapterDir(ch) <==> ch.title != ""
  {
    var v, c, t := ToFilename(ch.volume), ToFilename(ch.chapter), ToFilename(ch.title);
    assert '/' !in v && '/' !in c && '/' !in t && '-' !in c && '-' !in t by {
      assert forall i :: 0 <= i < |v| ==> Kept(v[i]);
      assert forall i :: 0 <= i < |c| ==> Kept(c[i]);
      assert forall i :: 0 <= i < |t| ==> Kept(t[i]);
    }
    if ch.title != "" {
      var d := "Chapter " + c + " - " + t;
      assert d[8 + |c| + 1] == '-';
    }
  }

  // ---------------------------------------------------------------------------
  // De-duplication of the feed
  // ---------------------------------------------------------------------------

  /** The key `"<volume>|<chapter>"` a feed entry is de-duplicated on (untrimmed fields). */
  function DedupKey(ch: Chapter): (r: string)
    ensures |r| == |ch.volume| + 1 + |ch.chapter| && r[|ch.volume|] == '|'
  {
    ch.volume + "|" + ch.chapter
  }

  /** Without a '|' in the volumes, equal keys mean equal (volume, chapter) pairs. */
  lemma DedupKeyInjective(a: Chapter, b: Chapter)
    requires '|' !in a.volume && '|' !in b.volume
    requires DedupKey(a) == DedupKey(b)
    ensures a.volume == b.volume && a.chapter == b.chapter
  {
    var ka, kb := DedupKey(a), DedupKey(b);
    FirstBarOfKey(a.volume, a.chapter);
    FirstBarOfKey(b.volume, b.chapter);
    assert a.volume == ka[..|a.volume|] == kb[..|b.volume|] == b.volume;
    assert a.chapter == ka[|a.volume| + 1..] == kb[|b.volume| + 1..] == b.chapter;
  }

  /** The index of the first '|' of `s`, or |s|. */
  function FirstBar(s: string): (i: nat)
    ensures i <= |s|
    decreases |s|
  {
    if s == [] || s[0] == '|' then 0 else 1 + FirstBar(s[1..])
  }

  lemma {:induction false} FirstBarOfKey(v: string, c: string)
    requires '|' !in v
    ensures FirstBar(v + "|" + c) == |v|
    decreases |v|
  {
    if v != [] {
      assert (v + "|" + c)[1..] == v[1..] + "|" + c;
      FirstBarOfKey(v[1..], c);
    }
  }

  /** With a '|' inside a volume, two different pairs share a key and one of them is dropped. */
  lemma DedupKeyCollision(a: Chapter, b: Chapter)
    requires a.volume == "1|2" && a.chapter == "3" && b.volume == "1" && b.chapter == "2|3"
    ensures DedupKey(a) == DedupKey(b)
  {
  }

  function Trimmed(ch: Chapter): Scraped {
    Scraped(TrimSpace(ch.title), TrimSpace(ch.volume), TrimSpace(ch.chapter), TrimSpace(ch.id))
  }

  /** The keys of a feed. */
  function KeysOf(feed: seq<Chapter>): set<string>
    decreases |feed|
  {
    if feed == [] then {} else KeysOf(feed[..|feed| - 1]) + {DedupKey(feed[|feed| - 1])}
  }

  lemma {:induction false} KeysOfMembers(feed: seq<Chapter>, k: string)
    ensures k in KeysOf(feed) <==> exists i :: 0 <= i < |feed| && DedupKey(feed[i]) == k
    decreases |feed|
  {
    if feed != [] {
      var p := feed[..|feed| - 1];
      KeysOfMembers(p, k);
      if k in KeysOf(p) {
        var i :| 0 <= i < |p| && DedupKey(p[i]) == k;
        assert feed[i] == p[i];
      }
      if exists i :: 0 <= i < |feed| && DedupKey(feed[i]) == k {
        var i :| 0 <= i < |feed| && DedupKey(feed[i]) == k;
        if i < |p| {
          assert p[i] == feed[i];
        }
      }
    }
  }

  /** The indices of the entries whose key has not occurred before: the entries kept. */
  function FirstOccurrences(feed: seq<Chapter>): (r: seq<int>)
    ensures forall k :: 0 <= k < |r| ==> 0 <= r[k] < |feed|
    decreases |feed|
  {
    if feed == [] then []
    else
      var p := feed[..|feed| - 1];
      FirstOccurrences(p) + (if DedupKey(feed[|feed| - 1]) in KeysOf(p) then [] else [|feed| - 1])
  }

  /** Extending the feed by one entry keeps the earlier choices and keeps the entry iff its key is new. */
  lemma FirstOccurrencesStep(feed: seq<Chapter>, i: int)
    requires 0 <= i < |feed|
    ensures KeysOf(feed[..i + 1]) == KeysOf(feed[..i]) + {DedupKey(feed[i])}
    ensures FirstOccurrences(feed[..i + 1]) ==
      FirstOccurrences(feed[..i]) + (if DedupKey(feed[i]) in KeysOf(feed[..i]) then [] else [i])
  {
    assert feed[..i + 1][..i] == feed[..i];
  }

  /** Each kept entry is the first of its key. */
  lemma {:induction false} KeptAreFirst(feed: seq<Chapter>)
    ensures forall k :: 0 <= k < |FirstOccurrences(feed)| ==>
      DedupKey(feed[FirstOccurrences(feed)[k]]) !in KeysOf(feed[..FirstOccurrences(feed)[k]])
    decreases |feed|
  {
    if feed != [] {
      var n := |feed| - 1;
      var p := feed[..n];
      KeptAreFirst(p);
      var r := FirstOccurrences(feed);
      var rp := FirstOccurrences(p);
      assert r == rp + (if DedupKey(feed[n]) in KeysOf(p) then [] else [n]);
      forall k | 0 <= k < |rp|
        ensures DedupKey(feed[r[k]]) !in KeysOf(feed[..r[k]])
      {
        var j := rp[k];
        assert DedupKey(p[j]) !in KeysOf(p[..j]);
        assert r[k] == j;
        assert feed[j] == p[j] && feed[..j] == p[..j];
      }
      if DedupKey(feed[n]) !in KeysOf(p) {
        assert r[|rp|] == n && feed[..n] == p;
      }
    }
  }

  /** Some kept entry carries `key`. */
  predicate KeyIsKept(feed: seq<Chapter>, key: string) {
    exists k :: 0 <= k < |FirstOccurrences(feed)| && DedupKey(feed[FirstOccurrences(feed)[k]]) == key
  }

  /** The key of entry `i` is carried by a kept entry. */
  lemma {:induction false} KeyKept(feed: seq<Chapter>, i: int)
    requires 0 <= i < |feed|
    ensures KeyIsKept(feed, DedupKey(feed[i]))
    decreases |feed|
  {
    var n := |feed| - 1;
    var p := feed[..n];
    var r := FirstOccurrences(feed);
    var rp := FirstOccurrences(p);
    assert r == rp + (if DedupKey(feed[n]) in KeysOf(p) then [] else [n]);
    var j := i;
    if i == n && DedupKey(feed[n]) in KeysOf(p) {
      KeysOfMembers(p, DedupKey(feed[n]));
      j :| 0 <= j < |p| && DedupKey(p[j]) == DedupKey(feed[n]);
    }
    if j < n {
      KeyKept(p, j);
      var k :| 0 <= k < |rp| && DedupKey(p[rp[k]]) == DedupKey(p[j]);
      assert r[k] == rp[k];
      assert feed[r[k]] == p[rp[k]];
      assert DedupKey(feed[r[k]]) == DedupKey(feed[i]);
    } else {
      assert r[|rp|] == n;
      assert DedupKey(feed[r[|rp|]]) == DedupKey(feed[i]);
    }
  }

  /** Every key of the feed is carried by a kept entry. */
  lemma EveryKeyKept(feed: seq<Chapter>)
    ensures forall i :: 0 <= i < |feed| ==> KeyIsKept(feed, DedupKey(feed[i]))
  {
    forall i | 0 <= i < |feed|
      ensures KeyIsKept(feed, DedupKey(feed[i]))
    {
      KeyKept(feed, i);
    }
  }

  /** The kept entries are in feed order. */
  lemma {:induction false} FirstOccurrencesIncreasing(feed: seq<Chapter>)
    ensures forall k, l :: 0 <= k < l < |FirstOccurrences(feed)| ==> FirstOccurrences(feed)[k] < FirstOccurrences(feed)[l]
    decreases |feed|
  {
    if feed != [] {
      var n := |feed| - 1;
      var p := feed[..n];
      FirstOccurrencesIncreasing(p);
      var r := FirstOccurrences(feed);
      var rp := FirstOccurrences(p);
      assert r == rp + (if DedupKey(feed[n]) in KeysOf(p) then [] else [n]);
      assert forall k :: 0 <= k < |rp| ==> rp[k] < n;
    }
  }

  /** No key is kept twice. */
  lemma KeptKeysDistinct(feed: seq<Chapter>)
    ensures var r := FirstOccurrences(feed);
      forall k, l :: 0 <= k < l < |r| ==> DedupKey(feed[r[k]]) != DedupKey(feed[r[l]])
  {
    var r := FirstOccurrences(feed);
    KeptAreFirst(feed);
    FirstOccurrencesIncreasing(feed);
    forall k, l | 0 <= k < l < |r|
      ensures DedupKey(feed[r[k]]) != DedupKey(feed[r[l]])
    {
      var pre := feed[..r[l]];
      assert pre[r[k]] == feed[r[k]];
      KeysOfMembers(pre, DedupKey(feed[r[k]]));
    }
  }

  /**
   * The de-duplication loop of `main`: one chapter per key, the first entry carrying it,
   * in feed order, with its fields trimmed.
   */
  method DedupChapters(feed: seq<Chapter>) returns (chapters: seq<Scraped>)
    ensures |chapters| == |FirstOccurrences(feed)|
    ensures forall k :: 0 <= k < |chapters| ==> chapters[k] == Trimmed(feed[FirstOccurrences(feed)[k]])
  {
    var seen: set<string> := {};
    chapters := [];
    ghost var kept: seq<int> := [];
    for i := 0 to |feed|
      invariant seen == KeysOf(feed[..i])
      invariant kept == FirstOccurrences(feed[..i])
      invariant |chapters| == |kept|
      invariant forall k :: 0 <= k < |chapters| ==> chapters[k] == Trimmed(feed[kept[k]])
    {
      FirstOccurrencesStep(feed, i);
      var key := DedupKey(feed[i]);
      if key !in seen {
        seen := seen + {key};
        var ch := Trimmed(feed[i]);
        chapters := chapters + [ch];
        kept := kept + [i];
      }
    }
    assert feed[..|feed|] == feed;
  }

  // ---------------------------------------------------------------------------
  // Scans and image quality
  // ---------------------------------------------------------------------------

  datatype ScrapeError = TooManyRequests | UnexpectedStatus(code: int) | Aborted(count: int) | NoScans

  /** The text each error prints with. */
  function ErrorText(e: ScrapeError): string {
    match e
    case TooManyRequests => "too many requests"
    case UnexpectedStatus(code) => "unexpected status code: " + Itoa(code)
    case Aborted(count) => "rate limit exceeded " + Itoa(count) + " times"
    case NoScans => "no scans found"
  }

  /** The check at the end of `getChapterScans`: an answer listing no images at all is an error. */
  function CheckScans(scan: ApiChapterScan): (r: Result<ApiChapterScan>)
    ensures r.Err? <==> scan.chapter.data.None? && scan.chapter.dataSaver.None?
    ensures r.Ok? ==> r.value == scan
    ensures r.Err? ==> r.msg == ErrorText(NoScans)
  {
    if scan.chapter.data.None? && scan.chapter.dataSaver.None? then Err(ErrorText(NoScans)) else Ok(scan)
  }

  /** The image set `downloadChapter` fetches and its quality name. */
  datatype Quality = Quality(name: string, scanIds: seq<string>)

  /** Full quality when listed, else the data-saver set, else "no scans found". */
  function ChooseQuality(scan: ScanSet): (r: Result<Quality>)
    ensures r.Err? <==> scan.data.None? && scan.dataSaver.None?
    ensures r.Ok? ==> r.value.name == "data" || r.value.name == "data-saver"
    ensures r.Ok? && r.value.name == "data" <==> scan.data.Some?
    ensures r.Ok? ==> Some(r.value.scanIds) == (if r.value.name == "data" then scan.data else scan.dataSaver)
    ensures r.Err? ==> r.msg == ErrorText(NoScans)
  {
    if scan.data.Some? then Ok(Quality("data", scan.data.value))
    else if scan.dataSaver.Some? then Ok(Quality("data-saver", scan.dataSaver.value))
    else Err(ErrorText(NoScans))
  }

  /**
   * A scan answer that passed `getChapterScans` always has a quality to download; a
   * chapter whose scans could not be fetched keeps the zero answer and fails with
   * "no scans found".
   */
  lemma CheckedScansHaveQuality(scan: ApiChapterScan)
    ensures CheckScans(scan).Ok? <==> ChooseQuality(scan.chapter).Ok?
    ensures ChooseQuality(ScanSet("", None, None)) == Err(ErrorText(NoScans))
  {
  }

  /** One image to fetch and the file it is written to. */
  datatype Download = Download(url: string, output: string)

  /** Every image `downloadChapter` fetches for a chapter, in order. */
  function DownloadPlan(destination: string, scans: ApiChapterScan): (r: Result<seq<Download>>)
    ensures r.Err? <==> ChooseQuality(scans.chapter).Err?
    ensures r.Ok? ==> |r.value| == |ChooseQuality(scans.chapter).value.scanIds|
    ensures r.Ok? ==> forall i :: 0 <= i < |r.value| ==>
      var id := ChooseQuality(scans.chapter).value.scanIds[i];
      r.value[i].url == ScanImageURL(scans.baseUrl, scans.chapter.hash, ChooseQuality(scans.chapter).value.name, id) &&
      r.value[i].output == JoinPath(destination, id)
  {
    var q := ChooseQuality(scans.chapter);
    if q.Err? then Err(q.msg)
    else Ok(seq(|q.value.scanIds|, i requires 0 <= i < |q.value.scanIds| =>
      Download(ScanImageURL(scans.baseUrl, scans.chapter.hash, q.value.name, q.value.scanIds[i]),
               JoinPath(destination, q.value.scanIds[i]))))
  }

  /** The number of leading downloads that succeed. */
  function Succeeding(plan: seq<Download>, fetchOk: string -> bool): (n: nat)
    ensures n <= |plan|
    ensures forall i :: 0 <= i < n ==> fetchOk(plan[i].url)
    ensures n < |plan| ==> !fetchOk(plan[n].url)
    decreases |plan|
  {
    if plan == [] || !fetchOk(plan[0].url) then 0 else 1 + Succeeding(plan[1..], fetchOk)
  }

  /**
   * `downloadChapter`: the images are fetched in order and the first failure stops the
   * chapter. `fetchOk` says which image downloads succeed.
   */
  method DownloadChapter(destination: string, scans: ApiChapterScan, fetchOk: string -> bool)
      returns (done: seq<Download>, failed: bool)
    ensures DownloadPlan(destination, scans).Err? ==> done == [] && failed
    ensures DownloadPlan(destination, scans).Ok? ==>
      var plan := DownloadPlan(destination, scans).value;
      done == plan[..Succeeding(plan, fetchOk)] && (failed <==> |done| < |plan|)
  {
    var scanIds: seq<string>;
    var quality: string;
    if scans.chapter.data.Some? {
      quality := "data";
      scanIds := scans.chapter.data.value;
    } else if scans.chapter.dataSaver.Some? {
      quality := "data-saver";
      scanIds := scans.chapter.dataSaver.value;
    } else {
      return [], true;
    }
    ghost var plan := DownloadPlan(destination, scans).value;
    done := [];
    for i := 0 to |scanIds|
      invariant done == plan[..i]
      invariant forall j :: 0 <= j < i ==> fetchOk(plan[j].url)
    {
      var d := Download(ScanImageURL(scans.baseUrl, scans.chapter.hash, quality, scanIds[i]), JoinPath(destination, scanIds[i]));
      if !fetchOk(d.url) {
        assert Succeeding(plan, fetchOk) == i by { SucceedingStops(plan, fetchOk, i); }
        return done, true;
      }
      done := done + [d];
    }
    assert Succeeding(plan, fetchOk) == |plan| by { SucceedingStops(plan, fetchOk, |plan|); }
    return done, false;
  }

  /** The leading successes end at the first failure. */
  lemma {:induction false} SucceedingStops(plan: seq<Download>, fetchOk: string -> bool, i: nat)
    requires i <= |plan|
    requires forall j :: 0 <= j < i ==> fetchOk(plan[j].url)
    requires i < |plan| ==> !fetchOk(plan[i].url)
    ensures Succeeding(plan, fetchOk) == i
    decreases i
  {
    if i > 0 {
      SucceedingStops(plan[1..], fetchOk, i - 1);
    }
  }

  // ---------------------------------------------------------------------------
  // Status codes and the rate limiter
  // ---------------------------------------------------------------------------

  /** What one answer of `request` yields: its error, and the rate-limit counter after it. */
  datatype Verdict = Verdict(err: Option<ScrapeError>, count: int)

  /**
   * `request`'s status check with `ErrRateLimiter`: 200 is no error, 429 counts one more
   * rate-limited answer (past five the scraper aborts), any other status is unexpected.
   */
  function StatusVerdict(code: int, count: int): (v: Verdict)
    ensures v.err.None? <==> code == 200
    ensures code == 429 ==>
      v.count == count + 1 && v.err == Some(if count + 1 > 5 then Aborted(count + 1) else TooManyRequests)
    ensures code != 429 ==> v.count == count
    ensures code != 200 && code != 429 ==> v.err == Some(UnexpectedStatus(code))
  {
    if code == 200 then Verdict(None, count)
    else if code == 429 then Verdict(Some(if count + 1 > 5 then Aborted(count + 1) else TooManyRequests), count + 1)
    else Verdict(Some(UnexpectedStatus(code)), count)
  }

  /** The errors of a run of answers, threading the counter. */
  function Replay(codes: seq<int>, count: int): (r: (seq<Option<ScrapeError>>, int))
    ensures |r.0| == |codes|
    decreases |codes|
  {
    if codes == [] then ([], count)
    else
      var v := StatusVerdict(codes[0], count);
      var rest := Replay(codes[1..], v.count);
      ([v.err] + rest.0, rest.1)
  }

  /**
   * Under a run of rate-limited answers the counter goes up by one each time and the
   * scraper aborts at the answer that takes it past five: with a fresh counter, the
   * sixth.
   */
  lemma {:induction false} RateLimitedRun(codes: seq<int>, count: int)
    requires forall i :: 0 <= i < |codes| ==> codes[i] == 429
    ensures Replay(codes, count).1 == count + |codes|
    ensures forall i :: 0 <= i < |codes| ==>
      Replay(codes, count).0[i] == Some(if count + i + 1 > 5 then Aborted(count + i + 1) else TooManyRequests)
    decreases |codes|
  {
    if codes != [] {
      RateLimitedRun(codes[1..], count + 1);
      var r := Replay(codes, count);
      forall i | 1 <= i < |codes|
        ensures r.0[i] == Some(if count + i + 1 > 5 then Aborted(count + i + 1) else TooManyRequests)
      {
        assert r.0[i] == Replay(codes[1..], count + 1).0[i - 1];
      }
    }
  }

  /** The scraper's global state: how many rate-limited answers it has seen. */
  class RateLimiter {
    var nbRateLimitExceeded: int

    constructor()
      ensures nbRateLimitExceeded == 0
    {
      nbRateLimitExceeded := 0;
    }

    /** `ErrRateLimiter`: count one more, and abort past five. */
    method ErrRateLimiter() returns (err: ScrapeError)
      modifies this
      ensures nbRateLimitExceeded == old(nbRateLimitExceeded) + 1
      ensures err == StatusVerdict(429, old(nbRateLimitExceeded)).err.value
    {
      nbRateLimitExceeded := nbRateLimitExceeded + 1;
      if nbRateLimitExceeded > 5 {
        return Aborted(nbRateLimitExceeded);
      }
      return TooManyRequests;
    }

    /** The status check of `request`; the body is returned whatever the status. */
    method CheckStatus(code: int) returns (err: Option<ScrapeError>)
      modifies this
      ensures Verdict(err, nbRateLimitExceeded) == StatusVerdict(code, old(nbRateLimitExceeded))
    {
      err := None;
      if code != 200 {
        if code == 429 {
          var e := ErrRateLimiter();
          err := Some(e);
        } else {
          err := Some(UnexpectedStatus(code));
        }
      }
    }
  }
}
