/**
 * The cache's data model (internal/models/cache-models.go and its newer copy
 * internal/models/api/cache-models.go): the categories, the status index document and
 * the cached record with its composite key (Id, Order, Offset).
 */
module CacheModels {
  import opened Results
  import opened ApiModels

  /** The cache categories; each one is a file `<key>.json` and an entry of status.json. */
  datatype Category =
    | LastUploaded | Popular | Tags
    | Categories | Mangas | Covers | MangaFeeds | ChaptersScan | MangaStats

  /** The category's status key, which is also its file name. */
  function Key(c: Category): string {
    match c
    case LastUploaded => "last_uploaded"
    case Popular => "popular"
    case Tags => "tags"
    case Categories => "categories"
    case Mangas => "mangas"
    case Covers => "covers"
    case MangaFeeds => "manga_feeds"
    case ChaptersScan => "chapters_scan"
    case MangaStats => "manga_stats"
  }

  /** Reads a status key back; unknown keys have no category. */
  function ParseKey(s: string): (r: Option<Category>)
    ensures r.Some? ==> Key(r.value) == s
    ensures r.None? ==> forall c :: Key(c) != s
  {
    if s == "last_uploaded" then Some(LastUploaded)
    else if s == "popular" then Some(Popular)
    else if s == "tags" then Some(Tags)
    else if s == "categories" then Some(Categories)
    else if s == "mangas" then Some(Mangas)
    else if s == "covers" then Some(Covers)
    else if s == "manga_feeds" then Some(MangaFeeds)
    else if s == "chapters_scan" then Some(ChaptersScan)
    else if s == "manga_stats" then Some(MangaStats)
    else None
  }

  /** The categories holding one snapshot rather than records keyed by id. */
  predicate IsSingleton(c: Category) {
    c == LastUploaded || c == Popular || c == Tags
  }

  /** The nine categories of the older package, which includes covers. */
  const LegacyCategories: seq<Category> :=
    [LastUploaded, Popular, Tags, Categories, Mangas, Covers, MangaFeeds, ChaptersScan, MangaStats]

  /** The eight categories of the newer package: covers are gone. */
  const CurrentCategories: seq<Category> :=
    [LastUploaded, Popular, Tags, Categories, Mangas, MangaFeeds, ChaptersScan, MangaStats]

  /** Every category has its own key: reading a key back gives the category. */
  lemma KeyRoundTrip(c: Category)
    ensures ParseKey(Key(c)) == Some(c)
  {
  }

  /** The nine keys are pairwise distinct strings. */
  lemma KeysDistinct()
    ensures forall i, j :: 0 <= i < j < |LegacyCategories| ==> Key(LegacyCategories[i]) != Key(LegacyCategories[j])
    ensures forall c: Category :: c in LegacyCategories
    ensures forall c: Category :: c in CurrentCategories <==> c != Covers
  {
    forall i, j | 0 <= i < j < |LegacyCategories|
      ensures Key(LegacyCategories[i]) != Key(LegacyCategories[j])
    {
      KeyRoundTrip(LegacyCategories[i]);
      KeyRoundTrip(LegacyCategories[j]);
    }
    forall c: Category ensures c in LegacyCategories {
      match c
      case LastUploaded => assert LegacyCategories[0] == c;
      case Popular => assert LegacyCategories[1] == c;
      case Tags => assert LegacyCategories[2] == c;
      case Categories => assert LegacyCategories[3] == c;
      case Mangas => assert LegacyCategories[4] == c;
      case Covers => assert LegacyCategories[5] == c;
      case MangaFeeds => assert LegacyCategories[6] == c;
      case ChaptersScan => assert LegacyCategories[7] == c;
      case MangaStats => assert LegacyCategories[8] == c;
    }
  }

  /**
   * The status.json document: a flag per singleton category and an id list per keyed
   * category (the newer package has no covers list; its covers list stays empty).
   */
  datatype StatusCache = StatusCache(
    lastUploaded: bool,
    popular: bool,
    tags: bool,
    categories: seq<string>,
    mangas: seq<string>,
    covers: seq<string>,
    mangaFeeds: seq<string>,
    chaptersScan: seq<string>,
    mangaStats: seq<string>)

  const ZeroStatus := StatusCache(false, false, false, [], [], [], [], [], [])

  /** The untyped `Data` of a record: what was cached, tagged by its Go type. */
  datatype Payload =
    | Null
    | MangaList(apiManga: ApiManga)
    | TagList(apiTags: ApiTags)
    | SingleManga(manga: Manga)
    | Feed(feed: ApiMangaFeed)
    | ChapterScan(scan: ApiChapterScan)
    | Stats(stats: ApiMangaStats)
    | CoverList(apiCover: ApiCover)
    | SingleCover(cover: Cover)

  /**
   * One cached item. `updatedTime` is in nanoseconds; (id, order, offset) is the
   * composite key (the older package calls the third field `Page`, but its methods
   * read `Offset`).
   */
  datatype Record = Record(id: string, updatedTime: int, order: string, offset: int, data: Payload)

  const ZeroRecord := Record("", 0, "", 0, Null)
}
